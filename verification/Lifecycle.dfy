/** How sockets end: states, the timers that dispose of them, and on_disconnect callbacks that call back
    into the library (ape_socket.c and the order of work in ape_events_loop.c). */
module Lifecycles {
  import opened Options

  datatype State = Online | Progress | Pending | Offline | Shutdown

  /** What a callback may do. busy says whether a shutdown finds data that is still to be sent, and
      fails whether a write ends the connection, by an I/O error or beyond the memory limit. */
  datatype Action =
    | CallShutdown(sock: nat, busy: bool)
    | CallShutdownNow(sock: nat)
    | CallShutdownDelay(sock: nat)
    | CallWrite(sock: nat, fails: bool)
    | Open(state: State, server: bool, onDisconnect: seq<Action>)

  /** A socket: its state, delay_timer, what its on_disconnect does, and how often on_disconnect was
      called and the socket freed. */
  datatype Conn = Conn(
    state: State, server: bool, delay: Option<nat>, onDisconnect: seq<Action>, disconnects: nat, frees: nat)

  /** ape_socket_free, _ape_socket_destroy and ape_socket_shutdown_delay_cb */
  datatype Kind = FreeLater | DestroyLater | ShutdownLater

  datatype Task = Task(kind: Kind, sock: nat)

  /** All sockets ever made, and the pending timers by identifier. */
  datatype World = World(conns: seq<Conn>, timers: map<nat, Task>, next: nat)

  /** Memory of the socket may be touched. */
  predicate Usable(w: World, s: nat) {
    s < |w.conns| && w.conns[s].frees == 0
  }

  function Put(w: World, s: nat, c: Conn): World
    requires s < |w.conns|
  {
    w.(conns := w.conns[s := c])
  }

  /** APE_timer_create */
  function Dispatch(w: World, task: Task): World {
    w.(timers := w.timers[w.next := task], next := w.next + 1)
  }

  // ---------- why nested callbacks come to an end ----------

  function Size(a: Action): nat {
    match a
    case Open(_, _, script) => 2 + SizeAll(script)
    case _ => 1
  }

  function SizeAll(actions: seq<Action>): nat {
    if actions == [] then 0 else Size(actions[0]) + SizeAll(actions[1..])
  }

  /** What the callbacks of sockets that are not offline may still do. */
  function Work(conns: seq<Conn>): nat {
    if conns == [] then 0
    else (if conns[0].state == Offline then 0 else 1 + SizeAll(conns[0].onDisconnect)) + Work(conns[1..])
  }

  function Load(c: Conn): nat {
    if c.state == Offline then 0 else 1 + SizeAll(c.onDisconnect)
  }

  lemma {:induction false} WorkPut(conns: seq<Conn>, s: nat, c: Conn)
    requires s < |conns|
    ensures Work(conns[s := c]) == Work(conns) - Load(conns[s]) + Load(c)
  {
    if s > 0 {
      assert conns[s := c][1..] == conns[1..][s - 1 := c];
      WorkPut(conns[1..], s - 1, c);
    } else {
      assert conns[s := c][1..] == conns[1..];
    }
  }

  lemma {:induction false} WorkMore(conns: seq<Conn>, c: Conn)
    ensures Work(conns + [c]) == Work(conns) + Load(c)
  {
    if conns == [] {
      assert [] + [c] == [c] && [c][1..] == [];
    } else {
      assert (conns + [c])[1..] == conns[1..] + [c];
      WorkMore(conns[1..], c);
    }
  }

  // ---------- the operations ----------

  /** The beginning of ape_socket_close: the state is set before on_disconnect is called. */
  function Closed(w: World, s: nat): (r: World)
    requires Usable(w, s) && w.conns[s].state != Offline
    ensures |r.conns| == |w.conns| && Work(r.conns) == Work(w.conns) - 1 - SizeAll(w.conns[s].onDisconnect)
  {
    var c := w.conns[s];
    WorkPut(w.conns, s, c.(state := Offline, disconnects := c.disconnects + 1));
    Put(w, s, c.(state := Offline, disconnects := c.disconnects + 1))
  }

  /** ape_socket_close */
  function Close(w: World, s: nat): (r: World)
    requires Usable(w, s) && w.conns[s].state != Offline
    ensures |w.conns| <= |r.conns| && Work(r.conns) < Work(w.conns)
    decreases Work(w.conns), 0, 0
  {
    Perform(Closed(w, s), w.conns[s].onDisconnect)
  }

  /** ape_socket_destroy */
  function Destroy(w: World, s: nat): (r: World)
    requires Usable(w, s)
    ensures |w.conns| <= |r.conns| && Work(r.conns) <= Work(w.conns)
    decreases Work(w.conns), 1, 0
  {
    if w.conns[s].state == Offline then w else Dispatch(Close(w, s), Task(FreeLater, s))
  }

  /** ape_shutdown */
  function ApeShutdown(w: World, s: nat): (r: World)
    requires Usable(w, s)
    ensures |w.conns| <= |r.conns| && Work(r.conns) <= Work(w.conns)
    decreases Work(w.conns), 2, 0
  {
    var c := w.conns[s];
    if c.state != Online then w
    else
      WorkPut(w.conns, s, c.(state := Shutdown));
      var w' := Put(w, s, c.(state := Shutdown));
      if c.server then Destroy(w', s) else Dispatch(w', Task(DestroyLater, s))
  }

  /** APE_socket_shutdown_now */
  function ShutdownNow(w: World, s: nat): (r: World)
    requires Usable(w, s)
    ensures |w.conns| <= |r.conns| && Work(r.conns) <= Work(w.conns)
    decreases Work(w.conns), 3, 0
  {
    match w.conns[s].state
    case Progress | Pending => Destroy(w, s)
    case Online => ApeShutdown(w, s)
    case Shutdown | Offline => w
  }

  /** APE_socket_shutdown; if data is pending the job list takes note. */
  function ShutdownQueued(w: World, s: nat, busy: bool): (r: World)
    requires Usable(w, s)
    ensures |w.conns| <= |r.conns| && Work(r.conns) <= Work(w.conns)
    decreases Work(w.conns), 4, 0
  {
    if w.conns[s].state == Online && busy then w else ShutdownNow(w, s)
  }

  /** APE_socket_shutdown_delay */
  function ShutdownDelay(w: World, s: nat): (r: World)
    requires Usable(w, s)
    ensures |w.conns| == |r.conns| && Work(r.conns) <= Work(w.conns)
  {
    var c := w.conns[s];
    if c.delay.Some? then w
    else
      WorkPut(w.conns, s, c.(delay := Some(w.next)));
      Dispatch(Put(w, s, c.(delay := Some(w.next))), Task(ShutdownLater, s))
  }

  /** A call of a callback. It must not name a socket that has been freed; such calls are left out. */
  function Do(w: World, a: Action): (r: World)
    ensures |w.conns| <= |r.conns| && Work(r.conns) <= Work(w.conns) + Size(a)
    decreases Work(w.conns) + Size(a), 5, 0
  {
    match a
    case Open(state, server, script) =>
      var c := Conn(if state == Offline || state == Shutdown then Pending else state, server, None, script, 0, 0);
      WorkMore(w.conns, c);
      w.(conns := w.conns + [c])
    case CallShutdown(s, busy) => if Usable(w, s) then ShutdownQueued(w, s, busy) else w
    case CallShutdownNow(s) => if Usable(w, s) then ShutdownNow(w, s) else w
    case CallShutdownDelay(s) => if Usable(w, s) then ShutdownDelay(w, s) else w
    case CallWrite(s, fails) =>
      if Usable(w, s) && w.conns[s].state == Online && fails then ShutdownNow(w, s) else w
  }

  /** A callback */
  function Perform(w: World, actions: seq<Action>): (r: World)
    ensures |w.conns| <= |r.conns| && Work(r.conns) <= Work(w.conns) + SizeAll(actions)
    decreases Work(w.conns) + SizeAll(actions), 6, |actions|
  {
    if actions == [] then w else Perform(Do(w, actions[0]), actions[1..])
  }

  // ---------- timers and events ----------

  /** ape_socket_free: a delay timer that is still pending is destroyed first. */
  function Free(w: World, s: nat): World
    requires Usable(w, s)
  {
    var c := w.conns[s];
    var timers := if c.delay.Some? then w.timers - {c.delay.value} else w.timers;
    Put(w, s, c.(frees := c.frees + 1)).(timers := timers)
  }

  /** A timer is run and, as its callback returns 0, destroyed. The two that may free the socket are
      taken off the list before instead of after; nothing refers to them. */
  function Fire(w: World, t: nat, busy: bool): World
    requires t in w.timers && Usable(w, w.timers[t].sock)
  {
    var s := w.timers[t].sock;
    match w.timers[t].kind
    case FreeLater => Free(w.(timers := w.timers - {t}), s)
    case DestroyLater =>
      var w' := w.(timers := w.timers - {t});
      if w.conns[s].state == Offline then w'
      else
        var r := Close(w', s);
        if Usable(r, s) then Free(r, s) else r
    case ShutdownLater =>
      var r := ShutdownQueued(w, s, busy);
      Put(r, s, r.conns[s].(delay := None)).(timers := r.timers - {t})
  }

  /** ape_timers_process, after the events: it runs some of the timers that were pending when it began,
      in some order; which ones is up to the clock. */
  function Pass(w: World, pending: set<nat>, order: seq<(nat, bool)>): World
    decreases |order|
  {
    if order == [] then w
    else
      var (t, busy) := order[0];
      var w' := if t in pending && t in w.timers && Usable(w, w.timers[t].sock) then Fire(w, t, busy) else w;
      Pass(w', pending, order[1..])
  }

  /** What the loop finds for a socket: calls are those of on_read, on_drain, on_connected or, for a
      server, of on_connect. */
  datatype Event =
    | Readable(sock: nat, calls: seq<Action>, hangup: bool)
    | Writable(sock: nat, calls: seq<Action>, ends: bool, connects: bool)
    | Accepting(sock: nat, calls: seq<Action>)

  /** The body of the for loop of APE_loop_run. A writable socket may end by an I/O error or by a queued
      shutdown. */
  function Handle(w: World, e: Event): World
    requires Usable(w, e.sock)
  {
    var s, state := e.sock, w.conns[e.sock].state;
    match e
    case Readable(_, calls, hangup) =>
      if state != Online then w
      else
        var r := Perform(w, calls);
        if hangup && Usable(r, s) && r.conns[s].state != Shutdown then Destroy(r, s) else r
    case Writable(_, calls, ends, connects) =>
      if state == Online then if ends then ApeShutdown(w, s) else Perform(w, calls)
      else if state == Progress then
        if connects then Perform(Put(w, s, w.conns[s].(state := Online)), calls) else Destroy(w, s)
      else w
    case Accepting(_, calls) => Perform(w, calls)
  }

  /** The for loop. The poll reports events for sockets that are not closed. */
  function Batch(w: World, events: seq<Event>): World
    decreases |events|
  {
    if events == [] then w
    else Batch(if Usable(w, events[0].sock) then Handle(w, events[0]) else w, events[1..])
  }

  /** Calls from outside the loop, or one round of it. */
  datatype Op = Calls(actions: seq<Action>) | Round(events: seq<Event>, order: seq<(nat, bool)>)

  function Step(w: World, op: Op): World {
    match op
    case Calls(actions) => Perform(w, actions)
    case Round(events, order) => var b := Batch(w, events); Pass(b, b.timers.Keys, order)
  }

  function Run(w: World, ops: seq<Op>): World
    decreases |ops|
  {
    if ops == [] then w else Run(Step(w, ops[0]), ops[1..])
  }

  const EMPTY := World([], map[], 0)

  // ---------- what always holds ----------

  ghost predicate Waiting(w: World, task: Task) {
    exists t :: t in w.timers && w.timers[t] == task
  }

  /** A socket: on_disconnect has been called exactly if it is offline, it is freed at most once and only
      then; and if it is ending, the timer that takes it one step on is pending. closing are the sockets
      of which on_disconnect is just being called. */
  ghost predicate ConnOk(w: World, s: nat, closing: set<nat>)
    requires s < |w.conns|
  {
    var c := w.conns[s];
    && c.frees <= 1
    && c.disconnects == (if c.state == Offline then 1 else 0)
    && (c.frees == 1 ==> c.state == Offline)
    && (s in closing ==> c.state == Offline && c.frees == 0)
    && (c.state == Shutdown ==> Waiting(w, Task(DestroyLater, s)))
    && (c.state == Offline && c.frees == 0 && s !in closing ==> Waiting(w, Task(FreeLater, s)))
    && (c.frees == 0 && c.delay.Some? ==>
          c.delay.value in w.timers && w.timers[c.delay.value] == Task(ShutdownLater, s))
  }

  /** A timer refers to a socket that has not been freed and is in the state it was made for. */
  ghost predicate TaskOk(w: World, t: nat, closing: set<nat>)
    requires t in w.timers
  {
    var task := w.timers[t];
    && t < w.next && Usable(w, task.sock)
    && match task.kind
       case FreeLater => w.conns[task.sock].state == Offline && task.sock !in closing
       case DestroyLater => w.conns[task.sock].state == Shutdown
       case ShutdownLater => w.conns[task.sock].delay == Some(t)
  }

  /** At most one timer that disposes of a socket is pending. */
  ghost predicate Single(w: World, t: nat, u: nat)
    requires t in w.timers && u in w.timers
  {
    w.timers[t].kind != ShutdownLater && w.timers[u].kind != ShutdownLater && w.timers[t].sock == w.timers[u].sock
    ==> t == u
  }

  ghost predicate Invariant(w: World, closing: set<nat>) {
    && (forall s :: s in closing ==> s < |w.conns|)
    && (forall s: nat :: s < |w.conns| ==> ConnOk(w, s, closing))
    && (forall t :: t in w.timers ==> TaskOk(w, t, closing))
    && (forall t, u :: t in w.timers && u in w.timers ==> Single(w, t, u))
  }

  /** How a socket goes on: it is not freed, and what has ended does not begin again. */
  predicate Onward(c: Conn, d: Conn) {
    && d.frees == c.frees
    && (c.state == Offline ==> d.state == Offline)
    && (c.state == Shutdown ==> d.state == Shutdown || d.state == Offline)
  }

  /** What callbacks leave alone: nothing is freed and no timer is taken away. */
  ghost predicate Later(w: World, r: World) {
    && |w.conns| <= |r.conns|
    && (forall s: nat :: s < |w.conns| ==> Onward(w.conns[s], r.conns[s]))
    && (forall t :: t in w.timers ==> t in r.timers && r.timers[t] == w.timers[t])
  }

  lemma LaterTrans(w: World, v: World, r: World)
    requires Later(w, v) && Later(v, r)
    ensures Later(w, r)
  {
  }

  lemma NextUnused(w: World, closing: set<nat>)
    requires Invariant(w, closing)
    ensures forall t :: t in w.timers ==> t < w.next
    ensures w.next !in w.timers
  {
    forall t | t in w.timers
      ensures t < w.next
    {
      assert TaskOk(w, t, closing);
    }
  }

  lemma ClosedKeeps(w: World, s: nat, closing: set<nat>)
    requires Invariant(w, closing) && Usable(w, s)
    requires w.conns[s].state != Offline && w.conns[s].state != Shutdown
    ensures Invariant(Closed(w, s), closing + {s}) && Later(w, Closed(w, s))
  {
    var r := Closed(w, s);
    assert ConnOk(w, s, closing);
    forall i: nat | i < |r.conns|
      ensures ConnOk(r, i, closing + {s})
    {
      assert ConnOk(w, i, closing);
    }
    forall t | t in r.timers
      ensures TaskOk(r, t, closing + {s})
    {
      assert TaskOk(w, t, closing);
    }
    forall t, u | t in r.timers && u in r.timers
      ensures Single(r, t, u)
    {
      assert Single(w, t, u);
    }
  }

  /** A socket that has been closed is to be freed later. */
  lemma DispatchFreeKeeps(w: World, s: nat, closing: set<nat>)
    requires Invariant(w, closing + {s}) && s < |w.conns| && s !in closing
    ensures Invariant(Dispatch(w, Task(FreeLater, s)), closing) && Later(w, Dispatch(w, Task(FreeLater, s)))
  {
    var r := Dispatch(w, Task(FreeLater, s));
    NextUnused(w, closing + {s});
    assert ConnOk(w, s, closing + {s});
    forall i: nat | i < |r.conns|
      ensures ConnOk(r, i, closing)
    {
      assert ConnOk(w, i, closing + {s});
      WaitingOn(w, r, i);
      assert r.timers[w.next] == Task(FreeLater, s);
    }
    forall t | t in r.timers
      ensures TaskOk(r, t, closing)
    {
      assert t != w.next ==> TaskOk(w, t, closing + {s});
    }
    forall t, u | t in r.timers && u in r.timers
      ensures Single(r, t, u)
    {
      assert t in w.timers ==> TaskOk(w, t, closing + {s});
      assert u in w.timers ==> TaskOk(w, u, closing + {s});
      assert t in w.timers && u in w.timers ==> Single(w, t, u);
    }
  }

  lemma WaitingOn(w: World, r: World, s: nat)
    requires forall t :: t in w.timers ==> t in r.timers && r.timers[t] == w.timers[t]
    ensures forall kind :: Waiting(w, Task(kind, s)) ==> Waiting(r, Task(kind, s))
  {
    forall kind | Waiting(w, Task(kind, s))
      ensures Waiting(r, Task(kind, s))
    {
      var t :| t in w.timers && w.timers[t] == Task(kind, s);
      assert t in r.timers && r.timers[t] == Task(kind, s);
    }
  }

  /** A client goes from ONLINE to SHUTDOWN and is to be destroyed later. */
  lemma ClientShutdownKeeps(w: World, s: nat, closing: set<nat>)
    requires Invariant(w, closing) && Usable(w, s) && w.conns[s].state == Online && !w.conns[s].server
    ensures Invariant(ApeShutdown(w, s), closing) && Later(w, ApeShutdown(w, s))
  {
    var r := ApeShutdown(w, s);
    NextUnused(w, closing);
    assert ConnOk(w, s, closing);
    forall i: nat | i < |r.conns|
      ensures ConnOk(r, i, closing)
    {
      assert ConnOk(w, i, closing);
      WaitingOn(w, r, i);
      assert r.timers[w.next] == Task(DestroyLater, s);
    }
    forall t | t in r.timers
      ensures TaskOk(r, t, closing)
    {
      assert t != w.next ==> TaskOk(w, t, closing);
    }
    forall t, u | t in r.timers && u in r.timers
      ensures Single(r, t, u)
    {
      assert t in w.timers ==> TaskOk(w, t, closing);
      assert u in w.timers ==> TaskOk(w, u, closing);
      assert t in w.timers && u in w.timers ==> Single(w, t, u);
    }
  }

  lemma DelayKeeps(w: World, s: nat, closing: set<nat>)
    requires Invariant(w, closing) && Usable(w, s)
    ensures Invariant(ShutdownDelay(w, s), closing) && Later(w, ShutdownDelay(w, s))
  {
    var r := ShutdownDelay(w, s);
    NextUnused(w, closing);
    if w.conns[s].delay == None {
      forall i: nat | i < |r.conns|
        ensures ConnOk(r, i, closing)
      {
        assert ConnOk(w, i, closing);
        WaitingOn(w, r, i);
      }
      forall t | t in r.timers
        ensures TaskOk(r, t, closing)
      {
        assert t != w.next ==> TaskOk(w, t, closing);
      }
      forall t, u | t in r.timers && u in r.timers
        ensures Single(r, t, u)
      {
        assert t in w.timers && u in w.timers ==> Single(w, t, u);
      }
    }
  }

  lemma OpenKeeps(w: World, a: Action, closing: set<nat>)
    requires Invariant(w, closing) && a.Open?
    ensures Invariant(Do(w, a), closing) && Later(w, Do(w, a))
  {
    var r := Do(w, a);
    forall i: nat | i < |r.conns|
      ensures ConnOk(r, i, closing)
    {
      assert i < |w.conns| ==> ConnOk(w, i, closing);
      assert i < |w.conns| ==> r.conns[i] == w.conns[i];
      WaitingOn(w, r, i);
    }
    forall t | t in r.timers
      ensures TaskOk(r, t, closing)
    {
      assert TaskOk(w, t, closing);
    }
    forall t, u | t in r.timers && u in r.timers
      ensures Single(r, t, u)
    {
      assert Single(w, t, u);
    }
  }

  /** A socket that is just being closed stays the way it is, whatever its callback does. */
  lemma {:induction false} CloseKeeps(w: World, s: nat, closing: set<nat>)
    requires Invariant(w, closing) && Usable(w, s)
    requires w.conns[s].state != Offline && w.conns[s].state != Shutdown
    ensures Invariant(Close(w, s), closing + {s}) && Later(w, Close(w, s)) && s !in closing
    decreases Work(w.conns), 0, 0
  {
    hide Invariant, Later, Perform, Closed;
    NotClosing(w, s, closing);
    ClosedKeeps(w, s, closing);
    PerformKeeps(Closed(w, s), w.conns[s].onDisconnect, closing + {s});
    LaterTrans(w, Closed(w, s), Close(w, s));
  }

  lemma NotClosing(w: World, s: nat, closing: set<nat>)
    requires Invariant(w, closing) && Usable(w, s) && w.conns[s].state != Offline
    ensures s !in closing
  {
    assert ConnOk(w, s, closing);
  }

  lemma {:induction false} DestroyKeeps(w: World, s: nat, closing: set<nat>)
    requires Invariant(w, closing) && Usable(w, s) && w.conns[s].state != Shutdown
    ensures Invariant(Destroy(w, s), closing) && Later(w, Destroy(w, s))
    decreases Work(w.conns), 1, 0
  {
    hide Invariant, Close, Dispatch;
    if w.conns[s].state != Offline {
      CloseKeeps(w, s, closing);
      DispatchFreeKeeps(Close(w, s), s, closing);
      LaterTrans(w, Close(w, s), Destroy(w, s));
    }
  }

  /** For a server ape_shutdown comes to the same as ape_socket_destroy. */
  lemma ServerShutdown(w: World, s: nat)
    requires Usable(w, s) && w.conns[s].state == Online && w.conns[s].server
    ensures ApeShutdown(w, s) == Destroy(w, s)
  {
    var c := w.conns[s];
    WorkPut(w.conns, s, c.(state := Shutdown));
    var w' := Put(w, s, c.(state := Shutdown));
    assert w'.conns[s := c.(state := Offline, disconnects := c.disconnects + 1)]
      == w.conns[s := c.(state := Offline, disconnects := c.disconnects + 1)];
    assert Closed(w', s) == Closed(w, s);
    assert Close(w', s) == Close(w, s);
    assert ApeShutdown(w, s) == Destroy(w', s);
  }

  lemma {:induction false} ApeShutdownKeeps(w: World, s: nat, closing: set<nat>)
    requires Invariant(w, closing) && Usable(w, s)
    ensures Invariant(ApeShutdown(w, s), closing) && Later(w, ApeShutdown(w, s))
    decreases Work(w.conns), 2, 0
  {
    hide Invariant, Destroy;
    if w.conns[s].state == Online {
      if w.conns[s].server {
        ServerShutdown(w, s);
        DestroyKeeps(w, s, closing);
      } else {
        ClientShutdownKeeps(w, s, closing);
      }
    }
  }

  lemma {:induction false} ShutdownNowKeeps(w: World, s: nat, closing: set<nat>)
    requires Invariant(w, closing) && Usable(w, s)
    ensures Invariant(ShutdownNow(w, s), closing) && Later(w, ShutdownNow(w, s))
    decreases Work(w.conns), 3, 0
  {
    hide Invariant, Destroy, ApeShutdown;
    match w.conns[s].state
    case Progress | Pending => DestroyKeeps(w, s, closing);
    case Online => ApeShutdownKeeps(w, s, closing);
    case Shutdown | Offline =>
  }

  lemma {:induction false} DoKeeps(w: World, a: Action, closing: set<nat>)
    requires Invariant(w, closing)
    ensures Invariant(Do(w, a), closing) && Later(w, Do(w, a))
    decreases Work(w.conns) + Size(a), 5, 0
  {
    hide Invariant, ShutdownNow, ShutdownDelay;
    match a
    case Open(_, _, _) => OpenKeeps(w, a, closing);
    case CallShutdown(s, busy) => if Usable(w, s) { ShutdownNowKeeps(w, s, closing); }
    case CallShutdownNow(s) => if Usable(w, s) { ShutdownNowKeeps(w, s, closing); }
    case CallShutdownDelay(s) => if Usable(w, s) { DelayKeeps(w, s, closing); }
    case CallWrite(s, fails) => if Usable(w, s) { ShutdownNowKeeps(w, s, closing); }
  }

  lemma {:induction false} PerformKeeps(w: World, actions: seq<Action>, closing: set<nat>)
    requires Invariant(w, closing)
    ensures Invariant(Perform(w, actions), closing) && Later(w, Perform(w, actions))
    decreases Work(w.conns) + SizeAll(actions), 6, |actions|
  {
    hide Invariant, Do;
    if actions != [] {
      DoKeeps(w, actions[0], closing);
      PerformKeeps(Do(w, actions[0]), actions[1..], closing);
      LaterTrans(w, Do(w, actions[0]), Perform(w, actions));
    }
  }

  /** A timer is taken off the list. */
  lemma RemoveKeeps(w: World, t: nat)
    requires Invariant(w, {}) && t in w.timers && w.timers[t].kind != ShutdownLater
    ensures var s, r := w.timers[t].sock, w.(timers := w.timers - {t});
      && Usable(r, s)
      && (w.timers[t].kind == FreeLater ==> Invariant(r, {s}))
      && (w.timers[t].kind == DestroyLater ==> w.conns[s].state == Shutdown)
  {
    var s, r := w.timers[t].sock, w.(timers := w.timers - {t});
    assert TaskOk(w, t, {});
    if w.timers[t].kind == FreeLater {
      forall i: nat | i < |r.conns|
        ensures ConnOk(r, i, {s})
      {
        assert ConnOk(w, i, {});
        StillWaiting(w, r, t, i);
      }
      forall u | u in r.timers
        ensures TaskOk(r, u, {s})
      {
        assert TaskOk(w, u, {}) && Single(w, t, u);
      }
      forall u, v | u in r.timers && v in r.timers
        ensures Single(r, u, v)
      {
        assert Single(w, u, v);
      }
    }
  }

  lemma StillWaiting(w: World, r: World, t: nat, s: nat)
    requires t in w.timers && r.timers == w.timers - {t}
    ensures forall kind :: Waiting(w, Task(kind, s)) && w.timers[t] != Task(kind, s) ==> Waiting(r, Task(kind, s))
  {
    forall kind | Waiting(w, Task(kind, s)) && w.timers[t] != Task(kind, s)
      ensures Waiting(r, Task(kind, s))
    {
      var u :| u in w.timers && w.timers[u] == Task(kind, s);
      assert u in r.timers && r.timers[u] == Task(kind, s);
    }
  }

  /** The timer that is about to close the socket is off the list, and the socket closed. */
  lemma DestroyClosed(w: World, t: nat)
    requires Invariant(w, {}) && t in w.timers && w.timers[t].kind == DestroyLater
    ensures var s := w.timers[t].sock;
      Usable(w, s) && w.conns[s].state == Shutdown && Invariant(Closed(w.(timers := w.timers - {t}), s), {s})
  {
    assert TaskOk(w, t, {});
    var s := w.timers[t].sock;
    var v := w.(timers := w.timers - {t});
    var r := Closed(v, s);
    assert ConnOk(w, s, {});
    forall i: nat | i < |r.conns|
      ensures ConnOk(r, i, {s})
    {
      assert ConnOk(w, i, {});
      StillWaiting(w, r, t, i);
    }
    forall u | u in r.timers
      ensures TaskOk(r, u, {s})
    {
      assert TaskOk(w, u, {}) && Single(w, t, u);
    }
    forall u, x | u in r.timers && x in r.timers
      ensures Single(r, u, x)
    {
      assert Single(w, u, x);
    }
  }

  /** Freeing a closed socket that no timer refers to any more, but for its delay timer. */
  lemma FreeKeeps(w: World, s: nat)
    requires Invariant(w, {s}) && Usable(w, s)
    ensures Invariant(Free(w, s), {})
  {
    var r := Free(w, s);
    assert ConnOk(w, s, {s});
    forall i: nat | i < |r.conns|
      ensures ConnOk(r, i, {})
    {
      assert ConnOk(w, i, {s});
      if w.conns[s].delay.Some? {
        StillWaiting(w, r, w.conns[s].delay.value, i);
      } else {
        WaitingOn(w, r, i);
      }
    }
    forall u | u in r.timers
      ensures TaskOk(r, u, {})
    {
      assert TaskOk(w, u, {s});
    }
    forall u, v | u in r.timers && v in r.timers
      ensures Single(r, u, v)
    {
      assert Single(w, u, v);
    }
  }

  /** The end of ape_socket_shutdown_delay_cb. */
  lemma DelayDoneKeeps(w: World, t: nat)
    requires Invariant(w, {}) && t in w.timers && w.timers[t].kind == ShutdownLater
    ensures var s := w.timers[t].sock;
      s < |w.conns| && Invariant(Put(w, s, w.conns[s].(delay := None)).(timers := w.timers - {t}), {})
  {
    assert TaskOk(w, t, {});
    var s := w.timers[t].sock;
    var r := Put(w, s, w.conns[s].(delay := None)).(timers := w.timers - {t});
    forall i: nat | i < |r.conns|
      ensures ConnOk(r, i, {})
    {
      assert ConnOk(w, i, {});
      StillWaiting(w, r, t, i);
    }
    forall u | u in r.timers
      ensures TaskOk(r, u, {})
    {
      assert TaskOk(w, u, {});
    }
    forall u, v | u in r.timers && v in r.timers
      ensures Single(r, u, v)
    {
      assert Single(w, u, v);
    }
  }

  lemma FireKeeps(w: World, t: nat, busy: bool)
    requires Invariant(w, {}) && t in w.timers
    ensures Usable(w, w.timers[t].sock) && Invariant(Fire(w, t, busy), {})
    ensures |w.conns| <= |Fire(w, t, busy).conns|
    ensures w.timers[t].kind != ShutdownLater ==> Fire(w, t, busy).conns[w.timers[t].sock].frees == 1
  {
    assert TaskOk(w, t, {});
    var s := w.timers[t].sock;
    match w.timers[t].kind
    case FreeLater =>
      RemoveKeeps(w, t);
      FreeKeeps(w.(timers := w.timers - {t}), s);
    case DestroyLater =>
      var v := w.(timers := w.timers - {t});
      DestroyClosed(w, t);
      PerformKeeps(Closed(v, s), w.conns[s].onDisconnect, {s});
      var r := Close(v, s);
      assert Onward(Closed(v, s).conns[s], r.conns[s]);
      FreeKeeps(r, s);
    case ShutdownLater =>
      ShutdownNowKeeps(w, s, {});
      DelayDoneKeeps(ShutdownQueued(w, s, busy), t);
  }

  lemma {:induction false} PassKeeps(w: World, pending: set<nat>, order: seq<(nat, bool)>)
    requires Invariant(w, {})
    ensures Invariant(Pass(w, pending, order), {})
    decreases |order|
  {
    hide Invariant, Fire;
    if order != [] {
      var (t, busy) := order[0];
      if t in pending && t in w.timers {
        FireKeeps(w, t, busy);
        PassKeeps(Fire(w, t, busy), pending, order[1..]);
      } else {
        PassKeeps(w, pending, order[1..]);
      }
    }
  }

  /** A pending connect succeeds. */
  lemma ConnectKeeps(w: World, s: nat)
    requires Invariant(w, {}) && Usable(w, s) && w.conns[s].state == Progress
    ensures var r := Put(w, s, w.conns[s].(state := Online)); Invariant(r, {}) && Later(w, r)
  {
    var r := Put(w, s, w.conns[s].(state := Online));
    forall i: nat | i < |r.conns|
      ensures ConnOk(r, i, {})
    {
      assert ConnOk(w, i, {});
      WaitingOn(w, r, i);
    }
    forall u | u in r.timers
      ensures TaskOk(r, u, {})
    {
      assert TaskOk(w, u, {});
    }
    forall u, v | u in r.timers && v in r.timers
      ensures Single(r, u, v)
    {
      assert Single(w, u, v);
    }
  }

  lemma HandleKeeps(w: World, e: Event)
    requires Invariant(w, {}) && Usable(w, e.sock)
    ensures Invariant(Handle(w, e), {}) && Later(w, Handle(w, e))
  {
    hide Invariant, Perform, Destroy, ApeShutdown;
    var s, state := e.sock, w.conns[e.sock].state;
    match e
    case Readable(_, calls, hangup) =>
      if state == Online {
        var r := Perform(w, calls);
        PerformKeeps(w, calls, {});
        if hangup && r.conns[s].state != Shutdown {
          assert Onward(w.conns[s], r.conns[s]);
          DestroyKeeps(r, s, {});
          LaterTrans(w, r, Destroy(r, s));
        }
      }
    case Writable(_, calls, ends, connects) =>
      if state == Online {
        ApeShutdownKeeps(w, s, {});
        PerformKeeps(w, calls, {});
      } else if state == Progress {
        if connects {
          ConnectKeeps(w, s);
          var v := Put(w, s, w.conns[s].(state := Online));
          PerformKeeps(v, calls, {});
          LaterTrans(w, v, Perform(v, calls));
        } else {
          DestroyKeeps(w, s, {});
        }
      }
    case Accepting(_, calls) => PerformKeeps(w, calls, {});
  }

  /** Nothing is freed while the events of a poll are being walked, so that every socket they refer to
      is still there when its turn comes. */
  lemma {:induction false} BatchKeeps(w: World, events: seq<Event>)
    requires Invariant(w, {})
    ensures Invariant(Batch(w, events), {}) && Later(w, Batch(w, events))
    ensures forall i :: 0 <= i < |events| && Usable(w, events[i].sock) ==> Usable(Batch(w, events[..i]), events[i].sock)
    decreases |events|
  {
    hide Invariant, Handle;
    if events != [] {
      var v := if Usable(w, events[0].sock) then Handle(w, events[0]) else w;
      if Usable(w, events[0].sock) {
        HandleKeeps(w, events[0]);
      }
      BatchKeeps(v, events[1..]);
      LaterTrans(w, v, Batch(w, events));
      forall i | 0 <= i < |events| && Usable(w, events[i].sock)
        ensures Usable(Batch(w, events[..i]), events[i].sock)
      {
        if i > 0 {
          assert events[..i][1..] == events[1..][..i - 1] && events[i] == events[1..][i - 1];
          assert Onward(w.conns[events[i].sock], v.conns[events[i].sock]);
        }
      }
    }
  }

  lemma {:induction false} RunKeeps(w: World, ops: seq<Op>)
    requires Invariant(w, {})
    ensures Invariant(Run(w, ops), {})
    decreases |ops|
  {
    hide Invariant, Perform, Batch, Pass;
    if ops != [] {
      match ops[0] {
        case Calls(actions) => PerformKeeps(w, actions, {});
        case Round(events, order) =>
          BatchKeeps(w, events);
          PassKeeps(Batch(w, events), Batch(w, events).timers.Keys, order);
      }
      RunKeeps(Step(w, ops[0]), ops[1..]);
    }
  }

  /** The timer t will dispose of the socket s. */
  predicate Reclaims(w: World, t: nat, s: nat) {
    t in w.timers && w.timers[t].kind != ShutdownLater && w.timers[t].sock == s
  }

  /** Over every run, with callbacks that open, write to and shut down sockets as they like: on_disconnect
      is called once for a socket that is offline and never before, a socket is freed at most once and
      never before on_disconnect, and a socket that is shut down or offline but not freed has exactly one
      timer pending that takes care of it. */
  lemma EverySocket(ops: seq<Op>, s: nat)
    requires s < |Run(EMPTY, ops).conns|
    ensures var w := Run(EMPTY, ops);
      var c := w.conns[s];
      && c.frees <= c.disconnects <= 1
      && (c.disconnects == 1 <==> c.state == Offline)
      && (c.frees == 0 && (c.state == Shutdown || c.state == Offline) <==> exists t: nat :: Reclaims(w, t, s))
      && (forall t: nat, u: nat :: Reclaims(w, t, s) && Reclaims(w, u, s) ==> t == u)
  {
    RunKeeps(EMPTY, ops);
    var w := Run(EMPTY, ops);
    var c := w.conns[s];
    assert ConnOk(w, s, {});
    if c.frees == 0 && (c.state == Shutdown || c.state == Offline) {
      var task := Task(if c.state == Shutdown then DestroyLater else FreeLater, s);
      assert Waiting(w, task);
      var t :| t in w.timers && w.timers[t] == task;
      assert Reclaims(w, t, s);
    }
    forall t: nat | Reclaims(w, t, s)
      ensures c.frees == 0 && (c.state == Shutdown || c.state == Offline)
    {
      assert TaskOk(w, t, {});
    }
    forall t: nat, u: nat | Reclaims(w, t, s) && Reclaims(w, u, s)
      ensures t == u
    {
      assert Single(w, t, u);
    }
  }

  // ---------- sockets that are told to end, end ----------

  predicate Ended(c: Conn) {
    c.state == Shutdown || c.state == Offline
  }

  /** ape_socket_destroy: the socket is offline, on_disconnect has been called, and a timer will free it. */
  lemma DestroyEnds(w: World, s: nat)
    requires Invariant(w, {}) && Usable(w, s) && !Ended(w.conns[s])
    ensures var r := Destroy(w, s);
      && Usable(r, s) && r.conns[s].state == Offline && r.conns[s].disconnects == 1
      && exists t: nat :: Reclaims(r, t, s) && r.timers[t].kind == FreeLater
  {
    DestroyKeeps(w, s, {});
    ClosedKeeps(w, s, {});
    assert {} + {s} == {s};
    PerformKeeps(Closed(w, s), w.conns[s].onDisconnect, {s});
    var r := Destroy(w, s);
    assert Onward(Closed(w, s).conns[s], Close(w, s).conns[s]);
    assert ConnOk(r, s, {}) && Onward(w.conns[s], r.conns[s]);
    var t :| t in r.timers && r.timers[t] == Task(FreeLater, s);
    assert Reclaims(r, t, s);
  }

  /** APE_socket_shutdown_now: a client that is up is shut down, and a timer will close and free it; a server,
      and a socket that is not connected yet, is closed at once. */
  lemma ShutdownNowEnds(w: World, s: nat)
    requires Invariant(w, {}) && Usable(w, s) && !Ended(w.conns[s])
    ensures var r, up := ShutdownNow(w, s), w.conns[s].state == Online && !w.conns[s].server;
      && Usable(r, s)
      && r.conns[s].state == (if up then Shutdown else Offline)
      && r.conns[s].disconnects == (if up then 0 else 1)
      && exists t: nat :: Reclaims(r, t, s) && r.timers[t].kind == if up then DestroyLater else FreeLater
  {
    assert ConnOk(w, s, {});
    if w.conns[s].state != Online {
      DestroyEnds(w, s);
    } else if w.conns[s].server {
      ServerShutdown(w, s);
      DestroyEnds(w, s);
    } else {
      var r := ShutdownNow(w, s);
      assert r.timers[w.next] == Task(DestroyLater, s);
      assert Reclaims(r, w.next, s);
    }
  }

  /** The calls that end a socket at once do so: an immediate shutdown, a shutdown with nothing left to send,
      and a write that fails. */
  lemma CallsEnd(w: World, s: nat)
    requires Invariant(w, {}) && Usable(w, s) && !Ended(w.conns[s])
    ensures Do(w, CallShutdownNow(s)) == Do(w, CallShutdown(s, false)) == ShutdownNow(w, s)
    ensures w.conns[s].state == Online ==> Do(w, CallWrite(s, true)) == ShutdownNow(w, s)
    ensures w.conns[s].state != Online ==> Do(w, CallShutdown(s, true)) == ShutdownNow(w, s)
    ensures Ended(ShutdownNow(w, s).conns[s])
  {
    ShutdownNowEnds(w, s);
  }

  /** The others leave every socket as it is: a shutdown with data pending, a write that goes well, and
      whatever is called on a socket that has ended. */
  lemma CallsSpare(w: World, s: nat)
    requires Usable(w, s)
    ensures w.conns[s].state == Online ==> Do(w, CallShutdown(s, true)) == w
    ensures Do(w, CallWrite(s, false)) == w
    ensures Ended(w.conns[s]) ==> forall busy: bool ::
      w == Do(w, CallShutdownNow(s)) == Do(w, CallShutdown(s, busy)) == Do(w, CallWrite(s, busy))
  {
    if Ended(w.conns[s]) {
      assert ShutdownNow(w, s) == w;
    }
  }

  /** Events that are none of the above do what the callback calls, on a socket that is up or accepts a
      connection, and nothing else. */
  lemma EventsSpare(w: World, s: nat, calls: seq<Action>)
    requires Usable(w, s)
    ensures var up := w.conns[s].state == Online;
      && Handle(w, Readable(s, calls, false)) == (if up then Perform(w, calls) else w)
      && (w.conns[s].state != Progress ==>
            Handle(w, Writable(s, calls, false, true)) == if up then Perform(w, calls) else w)
      && Handle(w, Accepting(s, calls)) == Perform(w, calls)
  {
  }

  /** A hangup, an error or a queued shutdown on a connection that is up, and a connect that fails, end it. */
  lemma EventsEnd(w: World, s: nat, calls: seq<Action>, connects: bool)
    requires Invariant(w, {}) && Usable(w, s)
    ensures w.conns[s].state == Online ==> Ended(Handle(w, Readable(s, calls, true)).conns[s])
    ensures w.conns[s].state == Online ==> Ended(Handle(w, Writable(s, calls, true, connects)).conns[s])
    ensures w.conns[s].state == Progress ==>
      Handle(w, Writable(s, calls, true, false)).conns[s].state == Offline
  {
    if w.conns[s].state == Online {
      ShutdownNowEnds(w, s);
      var r := Perform(w, calls);
      PerformKeeps(w, calls, {});
      assert Onward(w.conns[s], r.conns[s]);
      if r.conns[s].state != Shutdown && r.conns[s].state != Offline {
        DestroyEnds(r, s);
      }
    } else if w.conns[s].state == Progress {
      DestroyEnds(w, s);
    }
  }

  /** A timer that disposes of a socket stays until it runs, and what has been freed stays freed. */
  lemma FireOthers(w: World, u: nat, busy: bool, t: nat, s: nat)
    requires Invariant(w, {}) && u in w.timers && u != t && Reclaims(w, t, s)
    ensures Usable(w, w.timers[u].sock)
    ensures Reclaims(Fire(w, u, busy), t, s)
  {
    FireKeeps(w, u, busy);
    var c := w.timers[u].sock;
    assert TaskOk(w, u, {}) && ConnOk(w, c, {});
    match w.timers[u].kind
    case FreeLater =>
    case DestroyLater =>
      var v := w.(timers := w.timers - {u});
      DestroyClosed(w, u);
      PerformKeeps(Closed(v, c), w.conns[c].onDisconnect, {c});
      var r := Close(v, c);
      assert Onward(Closed(v, c).conns[c], r.conns[c]) && ConnOk(r, c, {c});
    case ShutdownLater =>
      ShutdownNowKeeps(w, c, {});
  }

  lemma FreedStays(w: World, u: nat, busy: bool, s: nat)
    requires Invariant(w, {}) && u in w.timers && s < |w.conns| && w.conns[s].frees == 1
    ensures Usable(w, w.timers[u].sock)
    ensures s < |Fire(w, u, busy).conns| && Fire(w, u, busy).conns[s].frees == 1
  {
    FireKeeps(w, u, busy);
    var c := w.timers[u].sock;
    assert TaskOk(w, u, {});
    match w.timers[u].kind
    case FreeLater =>
    case DestroyLater =>
      var v := w.(timers := w.timers - {u});
      DestroyClosed(w, u);
      PerformKeeps(Closed(v, c), w.conns[c].onDisconnect, {c});
      assert Onward(Closed(v, c).conns[s], Close(v, c).conns[s]);
    case ShutdownLater =>
      ShutdownNowKeeps(w, c, {});
      assert Onward(w.conns[s], ShutdownQueued(w, c, busy).conns[s]);
  }

  predicate Listed(order: seq<(nat, bool)>, t: nat) {
    exists i :: 0 <= i < |order| && order[i].0 == t
  }

  lemma FireStep(w: World, u: nat, busy: bool, t: nat, s: nat)
    requires Invariant(w, {}) && u in w.timers && s < |w.conns|
    requires w.conns[s].frees == 1 || Reclaims(w, t, s)
    ensures Usable(w, w.timers[u].sock) && Invariant(Fire(w, u, busy), {})
    ensures var r := Fire(w, u, busy);
      && s < |r.conns| && (r.conns[s].frees == 1 || (u != t && Reclaims(r, t, s)))
      && (w.conns[s].frees == 1 ==> r.conns[s].frees == 1)
  {
    FireKeeps(w, u, busy);
    if w.conns[s].frees == 1 {
      FreedStays(w, u, busy, s);
    } else if u != t {
      FireOthers(w, u, busy, t, s);
    }
  }

  /** A pass that runs the timer of a socket frees the socket. */
  lemma {:induction false} PassFrees(w: World, pending: set<nat>, order: seq<(nat, bool)>, t: nat, s: nat)
    requires Invariant(w, {}) && s < |w.conns|
    requires w.conns[s].frees == 1 || (Reclaims(w, t, s) && t in pending && Listed(order, t))
    ensures var r := Pass(w, pending, order); s < |r.conns| && r.conns[s].frees == 1
    decreases |order|
  {
    hide Invariant, Fire, Listed;
    if order == [] {
      NoneListed(t);
    } else {
      var (u, busy) := order[0];
      if Listed(order, t) && u != t {
        ListedRest(order, t);
      }
      if u in pending && u in w.timers {
        FireStep(w, u, busy, t, s);
        PassFrees(Fire(w, u, busy), pending, order[1..], t, s);
      } else {
        PassFrees(w, pending, order[1..], t, s);
      }
    }
  }

  lemma NoneListed(t: nat)
    ensures !Listed([], t)
  {
  }

  lemma ListedRest(order: seq<(nat, bool)>, t: nat)
    requires order != [] && Listed(order, t) && order[0].0 != t
    ensures Listed(order[1..], t)
  {
    var i :| 0 <= i < |order| && order[i].0 == t;
    assert order[1..][i - 1].0 == t;
  }

  /** The round of the loop runs every timer that is pending after its events. */
  predicate RunsAll(w: World, events: seq<Event>, order: seq<(nat, bool)>) {
    forall t :: t in Batch(w, events).timers ==> Listed(order, t)
  }

  /** In every reachable state: a socket that has ended, or ends in the events of a round, is freed by that
      round if it runs all pending timers. */
  lemma EndedFreed(ops: seq<Op>, events: seq<Event>, order: seq<(nat, bool)>, s: nat)
    requires var b := Batch(Run(EMPTY, ops), events); s < |b.conns| && Ended(b.conns[s])
    requires RunsAll(Run(EMPTY, ops), events, order)
    ensures var r := Step(Run(EMPTY, ops), Round(events, order));
      s < |r.conns| && r.conns[s].frees == 1 && r.conns[s].disconnects == 1
  {
    var w := Run(EMPTY, ops);
    RunKeeps(EMPTY, ops);
    BatchKeeps(w, events);
    var b := Batch(w, events);
    assert ConnOk(b, s, {});
    var t: nat := 0;
    if b.conns[s].frees == 0 {
      var task := Task(if b.conns[s].state == Shutdown then DestroyLater else FreeLater, s);
      assert Waiting(b, task);
      t :| t in b.timers && b.timers[t] == task;
      assert Reclaims(b, t, s) && Listed(order, t);
    }
    PassFrees(b, b.timers.Keys, order, t, s);
    PassKeeps(b, b.timers.Keys, order);
    var r := Step(w, Round(events, order));
    assert ConnOk(r, s, {});
  }

  /** APE_socket_shutdown_delay: when its timer runs and nothing is left to send, the socket ends, so that it
      is freed by the second round that runs all timers. */
  lemma DelayEnds(w: World, t: nat)
    requires Invariant(w, {}) && t in w.timers && w.timers[t].kind == ShutdownLater
    ensures var s := w.timers[t].sock;
      Usable(w, s) && s < |Fire(w, t, false).conns| && Ended(Fire(w, t, false).conns[s])
  {
    FireKeeps(w, t, false);
    assert TaskOk(w, t, {});
    var s := w.timers[t].sock;
    var r := ShutdownQueued(w, s, false);
    if Ended(w.conns[s]) {
      assert ShutdownNow(w, s) == w == r;
    } else {
      ShutdownNowEnds(w, s);
    }
    assert Fire(w, t, false).conns[s].state == r.conns[s].state;
  }

  /** Asking for it makes that timer pending, once. */
  lemma DelayPending(w: World, s: nat)
    requires Invariant(w, {}) && Usable(w, s)
    ensures var r := Do(w, CallShutdownDelay(s));
      && Usable(r, s) && r.conns[s].delay.Some? && r.conns[s].delay.value in r.timers
      && r.timers[r.conns[s].delay.value] == Task(ShutdownLater, s)
      && (w.conns[s].delay.Some? ==> r == w)
  {
    DelayKeeps(w, s, {});
    assert ConnOk(Do(w, CallShutdownDelay(s)), s, {});
  }
}
