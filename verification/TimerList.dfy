/** The timer list of ape_timers_next.c: a doubly linked list that is walked while callbacks change it. */
module TimerLists {
  import opened Options
  import opened Seqs
  import opened Timers
  import Theorems = TimerTheorems

  /** struct _ape_timer_t */
  class Node {
    var t: Timer
    var next: Node?
    var prev: Node?
    /** It has not been freed. */
    var live: bool

    constructor (t: Timer, next: Node?)
      ensures this.t == t && this.next == next && prev == null && live
    {
      this.t, this.next, prev, live := t, next, null, true;
    }
  }

  /** The node at a position, NULL beyond the ends. */
  ghost function At(nodes: seq<Node>, i: int): Node? {
    if 0 <= i < |nodes| then nodes[i] else null
  }

  ghost predicate Apart(nodes: seq<Node>) {
    forall i, j :: 0 <= i < j < |nodes| ==> nodes[i] != nodes[j]
  }

  /** What the pointers of the nodes are. */
  ghost function NextsOf(nodes: seq<Node>): (r: seq<Node?>)
    reads nodes
    ensures |r| == |nodes| && forall i {:trigger r[i]} :: 0 <= i < |r| ==> r[i] == nodes[i].next
  {
    seq(|nodes|, i requires 0 <= i < |nodes| reads nodes => nodes[i].next)
  }

  ghost function PrevsOf(nodes: seq<Node>): (r: seq<Node?>)
    reads nodes
    ensures |r| == |nodes| && forall i {:trigger r[i]} :: 0 <= i < |r| ==> r[i] == nodes[i].prev
  {
    seq(|nodes|, i requires 0 <= i < |nodes| reads nodes => nodes[i].prev)
  }

  /** What the pointers of a list should be. */
  ghost function Nexts(nodes: seq<Node>): (r: seq<Node?>)
    ensures |r| == |nodes| && forall i {:trigger r[i]} :: 0 <= i < |r| ==> r[i] == At(nodes, i + 1)
  {
    seq(|nodes|, i requires 0 <= i < |nodes| => At(nodes, i + 1))
  }

  ghost function Prevs(nodes: seq<Node>): (r: seq<Node?>)
    ensures |r| == |nodes| && forall i {:trigger r[i]} :: 0 <= i < |r| ==> r[i] == At(nodes, i - 1)
  {
    seq(|nodes|, i requires 0 <= i < |nodes| => At(nodes, i - 1))
  }

  /** The nodes of a doubly linked list, first one first. */
  ghost predicate Linked(nodes: seq<Node>)
    reads nodes
  {
    && Apart(nodes)
    && NextsOf(nodes) == Nexts(nodes) && PrevsOf(nodes) == Prevs(nodes)
    && forall i :: 0 <= i < |nodes| ==> nodes[i].live
  }

  /** p->next = n */
  method SetNext(p: Node, n: Node?, ghost nodes: seq<Node>, ghost i: nat)
    requires Apart(nodes) && i < |nodes| && p == nodes[i]
    modifies p`next
    ensures p.next == n && NextsOf(nodes) == old(NextsOf(nodes))[i := n]
  {
    p.next := n;
  }

  /** p->prev = n */
  method SetPrev(p: Node, n: Node?, ghost nodes: seq<Node>, ghost i: nat)
    requires Apart(nodes) && i < |nodes| && p == nodes[i]
    modifies p`prev
    ensures p.prev == n && PrevsOf(nodes) == old(PrevsOf(nodes))[i := n]
  {
    p.prev := n;
  }

  /** The pointers after a node has been put in front. */
  lemma Prepended(n: Node, nodes: seq<Node>)
    requires nodes != [] && n !in nodes && Apart(nodes)
    requires n.next == nodes[0] && n.prev == null && n.live
    requires NextsOf(nodes) == Nexts(nodes) && PrevsOf(nodes) == Prevs(nodes)[0 := n]
    requires forall i :: 0 <= i < |nodes| ==> nodes[i].live
    ensures Linked([n] + nodes)
  {
    assert NextsOf([n] + nodes) == [n.next] + NextsOf(nodes);
    assert PrevsOf([n] + nodes) == [n.prev] + PrevsOf(nodes);
  }

  /** The list after the pointers around a node have been led past it. */
  lemma Unlinked(nodes: seq<Node>, k: nat)
    requires k < |nodes| && Apart(nodes)
    requires NextsOf(nodes) == if k == 0 then Nexts(nodes) else Nexts(nodes)[k - 1 := At(nodes, k + 1)]
    requires PrevsOf(nodes) == if k + 1 == |nodes| then Prevs(nodes) else Prevs(nodes)[k + 1 := At(nodes, k - 1)]
    requires forall i :: 0 <= i < |nodes| && i != k ==> nodes[i].live
    ensures Linked(Cut(nodes, k))
  {
    NextsCut(nodes, k);
    PrevsCut(nodes, k);
    hide Nexts, Prevs, At;
    assert NextsOf(Cut(nodes, k)) == Cut(NextsOf(nodes), k);
    assert PrevsOf(Cut(nodes, k)) == Cut(PrevsOf(nodes), k);
  }

  lemma NextsCut(nodes: seq<Node>, k: nat)
    requires k < |nodes|
    ensures Cut(if k == 0 then Nexts(nodes) else Nexts(nodes)[k - 1 := At(nodes, k + 1)], k) == Nexts(Cut(nodes, k))
  {
  }

  lemma PrevsCut(nodes: seq<Node>, k: nat)
    requires k < |nodes|
    ensures Cut(if k + 1 == |nodes| then Prevs(nodes) else Prevs(nodes)[k + 1 := At(nodes, k - 1)], k)
      == Prevs(Cut(nodes, k))
  {
  }

  /** Without another node, the captured node is the same. */
  lemma StillCaptured(nodes: seq<Node>, at: nat, k: nat)
    requires k < |nodes| && k != at
    ensures At(Cut(nodes, k), if k < at then at - 1 else at) == At(nodes, at)
    ensures forall n :: n in Cut(nodes, k) ==> n in nodes
  {
  }

  ghost function Values(nodes: seq<Node>): (r: seq<Timer>)
    reads nodes
    ensures |r| == |nodes| && forall i :: 0 <= i < |r| ==> r[i] == nodes[i].t
  {
    seq(|nodes|, i requires 0 <= i < |nodes| reads nodes => nodes[i].t)
  }

  /** No two timers have the same identifier. */
  ghost predicate Unique(ts: seq<Timer>) {
    forall i, j :: 0 <= i < j < |ts| ==> ts[i].id != ts[j].id
  }

  ghost predicate Numbered(ts: seq<Timer>, lastId: nat) {
    Unique(ts) && forall i :: 0 <= i < |ts| ==> ts[i].id <= lastId
  }

  lemma NumberedMore(t: Timer, ts: seq<Timer>, lastId: nat)
    requires Numbered(ts, lastId) && t.id == lastId + 1
    ensures Numbered([t] + ts, lastId + 1)
  {
  }

  lemma SlicesMore(t: Timer, ts: seq<Timer>, at: nat)
    requires at <= |ts|
    ensures ([t] + ts)[..at + 1] == [t] + ts[..at] && ([t] + ts)[at + 1..] == ts[at..]
  {
  }

  lemma NumberedCut(ts: seq<Timer>, lastId: nat, k: nat)
    requires Numbered(ts, lastId) && k < |ts|
    ensures Numbered(Cut(ts, k), lastId)
  {
  }

  lemma {:induction false} FindAt(ts: seq<Timer>, k: nat)
    requires Unique(ts) && k < |ts|
    ensures Find(ts, ts[k].id) == Some(ts[k])
  {
    if k > 0 {
      FindAt(ts[1..], k - 1);
    }
  }

  lemma {:induction false} FindAbsent(ts: seq<Timer>, id: nat)
    requires forall i :: 0 <= i < |ts| ==> ts[i].id != id
    ensures Find(ts, id) == None
  {
    if ts != [] {
      FindAbsent(ts[1..], id);
    }
  }

  lemma {:induction false} UpdateAbsent(ts: seq<Timer>, t: Timer)
    requires forall i :: 0 <= i < |ts| ==> ts[i].id != t.id
    ensures Update(ts, t) == ts
  {
    if ts != [] {
      UpdateAbsent(ts[1..], t);
    }
  }

  lemma {:induction false} UpdateAt(ts: seq<Timer>, k: nat, t: Timer)
    requires Unique(ts) && k < |ts| && t.id == ts[k].id
    ensures Update(ts, t) == ts[k := t]
  {
    if k > 0 {
      UpdateAt(ts[1..], k - 1, t);
    }
  }

  lemma {:induction false} DropAt(ts: seq<Timer>, k: nat)
    requires Unique(ts) && k < |ts|
    ensures Drop(ts, ts[k].id) == Cut(ts, k)
  {
    if k > 0 {
      DropAt(ts[1..], k - 1);
    }
  }

  /** Looking up, replacing and dropping a timer by its position. */
  lemma Found(ts: seq<Timer>, at: nat, k: nat)
    requires Unique(ts) && k < |ts| && at <= |ts|
    ensures Find(ts[..at] + ts[at..], ts[k].id) == Some(ts[k])
  {
    assert ts[..at] + ts[at..] == ts;
    FindAt(ts, k);
  }

  lemma NotFound(ts: seq<Timer>, at: nat, id: nat)
    requires at <= |ts| && forall i :: 0 <= i < |ts| ==> ts[i].id != id
    ensures Find(ts[..at] + ts[at..], id) == None && Find(ts[..at], id) == None && Find(ts[at..], id) == None
  {
    FindAbsent(ts[..at] + ts[at..], id);
    FindAbsent(ts[..at], id);
    FindAbsent(ts[at..], id);
  }

  lemma SliceUpdate(ts: seq<Timer>, at: nat, k: nat, t: Timer)
    requires k < |ts| && at <= |ts|
    ensures ts[k := t][..at] == if k < at then ts[..at][k := t] else ts[..at]
    ensures ts[k := t][at..] == if k < at then ts[at..] else ts[at..][k - at := t]
  {
  }

  lemma ReplacedFront(ts: seq<Timer>, at: nat, k: nat, t: Timer)
    requires Unique(ts) && k < at <= |ts| && t.id == ts[k].id
    ensures Update(ts[..at], t) == ts[k := t][..at] && Update(ts[at..], t) == ts[k := t][at..]
  {
    SliceUpdate(ts, at, k, t);
    UpdateAt(ts[..at], k, t);
    UpdateAbsent(ts[at..], t);
  }

  lemma Replaced(ts: seq<Timer>, at: nat, k: nat, t: Timer)
    requires Unique(ts) && k < |ts| && at <= |ts| && t.id == ts[k].id
    ensures Update(ts[..at], t) == ts[k := t][..at] && Update(ts[at..], t) == ts[k := t][at..]
  {
    hide Update;
    if k < at {
      ReplacedFront(ts, at, k, t);
    } else {
      SliceUpdate(ts, at, k, t);
      UpdateAbsent(ts[..at], t);
      UpdateAt(ts[at..], k - at, t);
    }
  }

  lemma SliceCut(ts: seq<Timer>, at: nat, k: nat)
    requires k < |ts| && at <= |ts|
    ensures k < at ==> Cut(ts[..at], k) == Cut(ts, k)[..at - 1] && Cut(ts, k)[at - 1..] == ts[at..]
    ensures at < k ==> [ts[at]] + Cut(ts[at + 1..], k - at - 1) == Cut(ts, k)[at..] && Cut(ts, k)[..at] == ts[..at]
  {
  }

  lemma DroppedFront(ts: seq<Timer>, at: nat, k: nat)
    requires Unique(ts) && k < at <= |ts|
    ensures Find(ts[..at], ts[k].id).Some? && Drop(ts[..at], ts[k].id) == Cut(ts, k)[..at - 1]
    ensures Cut(ts, k)[at - 1..] == ts[at..]
  {
    SliceCut(ts, at, k);
    FindAt(ts[..at], k);
    DropAt(ts[..at], k);
  }

  lemma DroppedRest(ts: seq<Timer>, at: nat, k: nat)
    requires Unique(ts) && at < k < |ts|
    ensures Find(ts[..at], ts[k].id) == None && Find(ts[at..][1..], ts[k].id).Some?
    ensures [ts[at]] + Drop(ts[at..][1..], ts[k].id) == Cut(ts, k)[at..] && Cut(ts, k)[..at] == ts[..at]
  {
    SliceCut(ts, at, k);
    FindAbsent(ts[..at], ts[k].id);
    assert ts[at..][1..] == ts[at + 1..];
    FindAt(ts[at + 1..], k - at - 1);
    DropAt(ts[at + 1..], k - at - 1);
  }

  /** A state whose list is ts, with the captured timer at position at. */
  ghost predicate Shows(s: State, ts: seq<Timer>, at: nat) {
    at <= |ts| && s.front == ts[..at] && s.rest == ts[at..]
  }

  /** The transitions in terms of positions. */
  lemma ChangedIs(s: State, ts: seq<Timer>, at: nat, k: nat, t: Timer)
    requires Shows(s, ts, at) && Unique(ts) && k < |ts| && t.id == ts[k].id
    ensures Find(s.All(), t.id) == Some(ts[k])
    ensures Changed(s, t) == s.(front := ts[k := t][..at], rest := ts[k := t][at..])
  {
    Found(ts, at, k);
    Replaced(ts, at, k, t);
  }

  lemma DestroyIs(s: State, ts: seq<Timer>, at: nat, k: nat)
    requires Shows(s, ts, at) && Unique(ts) && k < |ts| && k != at
    ensures var a := if k < at then at - 1 else at;
      Timers.DestroyTimer(s, ts[k].id)
      == s.(front := Cut(ts, k)[..a], rest := Cut(ts, k)[a..], log := s.log + [Removed(ts[k].id, true)])
  {
    hide Find, Drop;
    if k < at {
      DroppedFront(ts, at, k);
    } else {
      DroppedRest(ts, at, k);
    }
  }

  lemma NothingIs(s: State, ts: seq<Timer>, at: nat, id: nat)
    requires Shows(s, ts, at) && Unique(ts)
    requires forall i :: 0 <= i < |ts| && i != at ==> ts[i].id != id
    ensures Timers.DestroyTimer(s, id) == s
    ensures (at < |ts| ==> ts[at].id != id) ==> Find(s.All(), id) == None
  {
    NotDestroyed(ts, at, id);
    if at < |ts| ==> ts[at].id != id {
      NotFound(ts, at, id);
    }
  }

  lemma ValuesMore(n: Node, nodes: seq<Node>, vals: seq<Timer>)
    requires |nodes| == |vals| && forall i :: 0 <= i < |nodes| ==> nodes[i].t == vals[i]
    ensures Values([n] + nodes) == [n.t] + vals
  {
  }

  lemma ValuesCut(nodes: seq<Node>, vals: seq<Timer>, k: nat)
    requires k < |nodes| == |vals| && forall i :: 0 <= i < |nodes| ==> nodes[i].t == vals[i]
    ensures Values(Cut(nodes, k)) == Cut(vals, k)
  {
  }

  /** A new first node. */
  method Prepend(timer: Node, head: Node?, ghost nodes: seq<Node>)
    requires Linked(nodes) && head == At(nodes, 0) && timer !in nodes
    requires timer.next == head && timer.prev == null && timer.live
    modifies if head == null then {} else {head}`prev
    ensures Linked([timer] + nodes)
  {
    if head != null {
      SetPrev(head, timer, nodes, 0);
      Prepended(timer, nodes);
    } else {
      assert NextsOf([timer]) == Nexts([timer]) && PrevsOf([timer]) == Prevs([timer]);
      assert [timer] + nodes == [timer];
    }
  }

  /** The pointers around a node are led past it, and it is freed. */
  method Unlink(timer: Node, ghost nodes: seq<Node>, ghost k: nat)
    requires Linked(nodes) && k < |nodes| && timer == nodes[k]
    modifies nodes`next, nodes`prev, timer`live
    ensures Linked(Cut(nodes, k)) && !timer.live
    ensures timer.next == At(nodes, k + 1)
  {
    assert timer.next == NextsOf(nodes)[k] && timer.prev == PrevsOf(nodes)[k];
    if timer.prev != null {
      SetNext(timer.prev, timer.next, nodes, k - 1);
    }
    if timer.next != null {
      SetPrev(timer.next, timer.prev, nodes, k + 1);
    }
    timer.live := false;
    Unlinked(nodes, k);
  }

  class TimerList {
    var head: Node?
    var asyncs: seq<Deferral>
    /** The number of the last deferred callback; the source tells them apart by their address. */
    var lastAsync: nat
    ghost var fired: seq<nat>
    var lastId: nat
    /** The clock. */
    var now: nat
    var drift: seq<nat>
    ghost var nodes: seq<Node>
    /** How many nodes come before the captured one; all, if there is none. */
    ghost var at: nat
    ghost var log: seq<Event>

    ghost predicate Shape()
      reads this, nodes
    {
      head == At(nodes, 0) && Linked(nodes) && at <= |nodes|
    }

    ghost predicate Valid()
      reads this, nodes
    {
      Shape() && Numbered(Values(nodes), lastId)
    }

    ghost function Own(): set<Node>
      reads this
    {
      set n | n in nodes
    }

    ghost function Abs(): State
      reads this, nodes
      requires at <= |nodes|
    {
      State(Values(nodes)[..at], Values(nodes)[at..], asyncs, lastAsync, fired, lastId, now, drift, log)
    }

    /** The captured node. */
    ghost function Captured(): Node?
      reads this
    {
      At(nodes, at)
    }

    constructor (now: nat, drift: seq<nat>)
      ensures Valid() && at == |nodes| && Own() == {}
      ensures Abs() == State([], [], [], 0, [], 0, now, drift, [])
    {
      head, asyncs, lastId := null, [], 0;
      this.now, this.drift := now, drift;
      nodes, at, log, lastAsync, fired := [], 0, [], 0, [];
    }

    /** mach_absolute_time */
    method Clock() returns (r: nat)
      requires Valid()
      modifies this`now, this`drift
      ensures Valid() && Abs() == Sample(old(Abs())) && r == now
    {
      if drift != [] {
        now := now + drift[0];
        drift := drift[1..];
      }
      r := now;
    }

    /** The new timer becomes the head of the list. */
    method Attach(t: Timer) returns (timer: Node)
      requires Shape()
      modifies this`head, this`nodes, this`at, if head == null then {} else {head}`prev
      ensures Shape() && fresh(timer) && nodes == [timer] + old(nodes) && at == old(at) + 1
      ensures Values(nodes) == [t] + old(Values(nodes))
    {
      ghost var ns, vals := nodes, Values(nodes);
      timer := new Node(t, head);
      Prepend(timer, head, nodes);
      ValuesMore(timer, ns, vals);
      hide Linked, Values;
      head := timer;
      nodes := [timer] + ns;
      at := at + 1;
    }

    method Push(t: Timer) returns (timer: Node)
      requires Shape()
      modifies this`head, this`nodes, this`at, if head == null then {} else {head}`prev
      ensures Shape() && fresh(timer) && nodes == [timer] + old(nodes) && at == old(at) + 1
      ensures Values(nodes) == [t] + old(Values(nodes))
      ensures Abs() == old(Abs()).(front := [t] + old(Abs()).front)
    {
      SlicesMore(t, Values(nodes), at);
      hide Linked, Values, At;
      timer := Attach(t);
    }

    method Insert(t: Timer, ghost ms: int) returns (timer: Node)
      requires Valid() && t.id == lastId + 1
      modifies this`head, this`lastId, this`nodes, this`at, this`log, if head == null then {} else {head}`prev
      ensures Valid() && fresh(timer) && nodes == [timer] + old(nodes) && at == old(at) + 1
      ensures Abs() == old(Abs()).(
        front := [t] + old(Abs()).front, lastId := t.id, log := old(log) + [Created(t.id, now, ms)])
    {
      NumberedMore(t, Values(nodes), lastId);
      ghost var vals := Values(nodes);
      hide Linked, Numbered;
      lastId := lastId + 1;
      log := log + [Created(lastId, now, ms)];
      assert Values(nodes) == vals;
      timer := Push(t);
    }

    /** APE_timer_create */
    method CreateTimer(ms: int, rounds: seq<Round>) returns (timer: Node)
      requires Valid()
      modifies this`head, this`lastId, this`now, this`drift, this`nodes, this`at, this`log
      modifies if head == null then {} else {head}`prev
      ensures Valid() && fresh(timer) && nodes == [timer] + old(nodes) && at == old(at) + 1
      ensures Abs() == Timers.CreateTimer(old(Abs()), ms, rounds)
    {
      hide Linked, Numbered, Wrap, Sample, Values;
      var ticks := Wrap(ms * MILLISECOND);
      var time := Clock();
      timer := Insert(Timer(lastId + 1, true, false, ticks, Wrap(time + ticks), rounds), ms);
    }

    /** The loop that looks for an identifier. */
    method GetById(id: nat) returns (timer: Node?, ghost k: nat)
      requires Valid()
      ensures timer == At(nodes, k)
      ensures timer == null ==> forall i :: 0 <= i < |nodes| ==> nodes[i].t.id != id
      ensures timer != null ==> timer.t.id == id
    {
      timer := head;
      k := 0;
      while timer != null
        invariant 0 <= k <= |nodes| && timer == At(nodes, k)
        invariant forall i :: 0 <= i < k ==> nodes[i].t.id != id
        decreases |nodes| - k
      {
        if timer.t.id == id {
          return;
        }
        assert timer.next == NextsOf(nodes)[k];
        timer := timer.next;
        k := k + 1;
      }
    }

    /** Writing to a timer. */
    method SetTimer(timer: Node, ghost k: nat, t: Timer)
      requires Valid() && k < |nodes| && timer == nodes[k] && t.id == timer.t.id
      modifies timer`t
      ensures Valid() && timer.t == t && Values(nodes) == old(Values(nodes))[k := t]
    {
      timer.t := t;
      assert NextsOf(nodes) == old(NextsOf(nodes)) && PrevsOf(nodes) == old(PrevsOf(nodes));
      assert Values(nodes) == old(Values(nodes))[k := t];
    }

    method Remove(timer: Node, ghost k: nat) returns (ret: Node?)
      requires Shape() && k < |nodes| && timer == nodes[k]
      modifies this`head, this`nodes, this`at, nodes`next, nodes`prev, timer`live
      ensures Shape() && nodes == Cut(old(nodes), k) && ret == At(nodes, k) && !timer.live
      ensures at == if k < old(at) then old(at) - 1 else old(at)
      ensures Values(nodes) == Cut(old(Values(nodes)), k)
    {
      ghost var ns, vals := nodes, Values(nodes);
      assert timer.next == NextsOf(nodes)[k] && timer.prev == PrevsOf(nodes)[k];
      hide Linked, NextsOf, PrevsOf, Values;
      if timer.prev == null {
        head := timer.next;
      }
      Unlink(timer, nodes, k);
      ret := timer.next;
      nodes := Cut(nodes, k);
      at := if k < at then at - 1 else at;
      ValuesCut(ns, vals, k);
    }

    /** ape_timer_destroy */
    method DestroyNode(timer: Node, ghost k: nat, ghost asked: bool) returns (ret: Node?)
      requires Valid() && k < |nodes| && timer == nodes[k]
      modifies this`head, this`nodes, this`at, this`log, nodes`next, nodes`prev, timer`live
      ensures Valid() && nodes == Cut(old(nodes), k) && ret == At(nodes, k) && !timer.live
      ensures at == if k < old(at) then old(at) - 1 else old(at)
      ensures Values(nodes) == Cut(old(Values(nodes)), k)
      ensures log == old(log) + [Removed(old(timer.t.id), asked)]
    {
      ghost var vals := Values(nodes);
      NumberedCut(vals, lastId, k);
      log := log + [Removed(timer.t.id, asked)];
      assert Values(nodes) == vals;
      hide Linked, Numbered, Values, Cut, At;
      ret := Remove(timer, k);
    }

    /** APE_timer_clearbyid */
    method ClearTimer(id: nat, force: bool)
      requires Valid()
      modifies this`log, nodes`t
      ensures Valid() && Abs() == Timers.ClearTimer(old(Abs()), id, force)
    {
      var timer, k := GetById(id);
      ghost var s := Abs();
      if timer == null {
        NothingIs(s, Values(nodes), at, id);
        return;
      }
      var t := timer.t.(cleared := true);
      ChangedIs(s, Values(nodes), at, k, t);
      hide Linked, Numbered, Values, Find, Changed;
      if !timer.t.guarded || force {
        log := if timer.t.cleared then log else log + [Marked(id)];
        SetTimer(timer, k, t);
      }
    }

    /** APE_timer_unprotect, by identifier */
    method UnprotectTimer(id: nat)
      requires Valid()
      modifies nodes`t
      ensures Valid() && Abs() == Timers.UnprotectTimer(old(Abs()), id)
    {
      var timer, k := GetById(id);
      ghost var s := Abs();
      if timer == null {
        NothingIs(s, Values(nodes), at, id);
        return;
      }
      var t := timer.t.(guarded := false);
      ChangedIs(s, Values(nodes), at, k, t);
      hide Linked, Numbered, Values, Find, Changed;
      SetTimer(timer, k, t);
    }

    /** APE_timer_destroy, by identifier, for any timer but the captured one */
    method DestroyTimer(id: nat, captured: Node?)
      requires Valid() && captured == Captured()
      modifies this`head, this`nodes, this`at, this`log, nodes
      ensures Valid() && Captured() == captured && Abs() == Timers.DestroyTimer(old(Abs()), id)
      ensures forall n :: n in nodes ==> n in old(nodes)
    {
      var timer, k := GetById(id);
      if timer == null || timer == captured {
        assert captured != null ==> captured == nodes[at];
        NothingIs(Abs(), Values(nodes), at, id);
        return;
      }
      hide *;
      DestroyOther(timer, k);
    }

    method DestroyOther(timer: Node, ghost k: nat)
      requires Valid() && k < |nodes| && timer == nodes[k] && k != at
      modifies this`head, this`nodes, this`at, this`log, nodes
      ensures Valid() && Captured() == old(Captured())
      ensures Abs() == Timers.DestroyTimer(old(Abs()), old(timer.t.id))
      ensures forall n :: n in nodes ==> n in old(nodes)
    {
      DestroyIs(Abs(), Values(nodes), at, k);
      StillCaptured(nodes, at, k);
      hide Linked, Numbered, Values, Timers.DestroyTimer, Apart, Cut, At;
      var _ := DestroyNode(timer, k, true);
    }

    /** One call of a callback. */
    method Perform(a: Action, captured: Node?)
      requires Valid() && captured == Captured()
      modifies this, Own()
      ensures Valid() && Captured() == captured && Abs() == Act(old(Abs()), a)
      ensures fresh(Own() - old(Own()))
    {
      hide Linked, Numbered, Values, Timers.CreateTimer, Timers.ClearTimer, Timers.UnprotectTimer, Timers.DestroyTimer;
      match a
      case Create(ms, rounds) => var _ := CreateTimer(ms, rounds);
      case Clear(id, force) => ClearTimer(id, force);
      case Unprotect(id) => UnprotectTimer(id);
      case Destroy(id) => DestroyTimer(id, captured);
      case Async(actions) =>
        asyncs := [Deferral(lastAsync + 1, actions)] + asyncs;
        lastAsync := lastAsync + 1;
    }

    /** A callback */
    method PerformAll(actions: seq<Action>, captured: Node?)
      requires Valid() && captured == Captured()
      modifies this, Own()
      ensures Valid() && Captured() == captured && Abs() == ActAll(old(Abs()), actions)
      ensures fresh(Own() - old(Own()))
    {
      hide Linked, Numbered, Act;
      ghost var s := Abs();
      var i := 0;
      assert actions[0..] == actions;
      while i < |actions|
        invariant 0 <= i <= |actions|
        invariant Valid() && Captured() == captured
        invariant ActAll(Abs(), actions[i..]) == ActAll(s, actions)
        invariant fresh(Own() - old(Own()))
      {
        assert actions[i..][0] == actions[i] && actions[i..][1..] == actions[i + 1..];
        Perform(actions[i], captured);
        i := i + 1;
      }
    }

    /** One deferred callback */
    method FireOne(d: Deferral, captured: Node?)
      requires Valid() && captured == Captured()
      modifies this, Own()
      ensures Valid() && Captured() == captured && Abs() == Fire(old(Abs()), d)
      ensures fresh(Own() - old(Own()))
    {
      hide Linked, Numbered, ActAll;
      fired := fired + [d.n];
      PerformAll(d.actions, captured);
    }

    /** process_async; the captured timer is the one that ape_timers_process has at hand. */
    method ProcessAsync(captured: Node?)
      requires Valid() && captured == Captured()
      modifies this, Own()
      ensures Valid() && Captured() == captured && Abs() == Timers.ProcessAsync(old(Abs()))
      ensures fresh(Own() - old(Own()))
    {
      ghost var s := Abs().(asyncs := []);
      var batch := asyncs;
      asyncs := [];
      var i := 0;
      assert batch[0..] == batch && Abs() == s;
      hide Linked, Numbered, Fire;
      while i < |batch|
        invariant 0 <= i <= |batch|
        invariant Valid() && Captured() == captured
        invariant RunAsyncs(Abs(), batch[i..]) == RunAsyncs(s, batch)
        invariant fresh(Own() - old(Own()))
      {
        assert batch[i..][0] == batch[i] && batch[i..][1..] == batch[i + 1..];
        FireOne(batch[i], captured);
        i := i + 1;
      }
    }

    /** Writing to the captured timer. */
    method SetCaptured(cur: Node, t: Timer)
      requires Valid() && cur == Captured() && t.id == cur.t.id
      modifies cur`t
      ensures Valid() && Abs() == old(Abs()).(rest := [t] + old(Abs()).rest[1..])
      ensures old(Abs()).rest != [] && old(Abs()).rest[0] == old(cur.t)
    {
      SliceUpdate(Values(nodes), at, at, t);
      hide Linked, Numbered, Values;
      SetTimer(cur, at, t);
    }

    /** Calling the callback of the captured timer. */
    method CallHead(cur: Node) returns (ret: int)
      requires Valid() && cur == Captured()
      modifies this, Own()
      ensures Valid() && Captured() == cur && fresh(Own() - old(Own()))
      ensures old(Abs()).rest != [] && old(Abs()).rest[0] == old(cur.t)
      ensures Abs() == Timers.CallHead(old(Abs())) && ret == RoundOf(old(cur.t)).ret
    {
      hide Linked, Numbered, Values, ActAll, RoundOf, Period;
      var round := RoundOf(cur.t);
      var rounds := if cur.t.rounds == [] then [] else cur.t.rounds[1..];
      SetCaptured(cur, cur.t.(rounds := rounds));
      log := log + [Ran(cur.t.id, now, round.ret)];
      PerformAll(round.actions, cur);
      ret := round.ret;
    }

    /** Going on to the next timer. */
    method Advance(cur: Node) returns (next: Node?)
      requires Valid() && cur == Captured()
      modifies this`at
      ensures Valid() && next == Captured() && at == old(at) + 1
      ensures old(Abs()).rest != [] && Abs() == Next(old(Abs()))
    {
      ghost var vals := Values(nodes);
      assert vals[..at + 1] == vals[..at] + [vals[at]] && vals[at + 1..] == vals[at..][1..];
      assert cur.next == NextsOf(nodes)[at];
      next := cur.next;
      at := at + 1;
    }

    /** Destroying the captured timer; the next one is captured. */
    method DestroyCaptured(cur: Node) returns (next: Node?)
      requires Valid() && cur == Captured()
      modifies this`head, this`nodes, this`at, this`log, nodes
      ensures Valid() && next == Captured() && Own() <= old(Own())
      ensures old(Abs()).rest != [] && Abs() == RemoveHead(old(Abs()))
    {
      ghost var vals := Values(nodes);
      assert Cut(vals, at)[..at] == vals[..at] && Cut(vals, at)[at..] == vals[at..][1..];
      hide Linked, Numbered, Values, Cut;
      next := DestroyNode(cur, at, false);
    }

    /** The end of the loop of ape_timers_process. */
    method Leave(cur: Node, inums: nat, last: nat) returns (next: Node?, least: nat)
      requires Valid() && cur == Captured()
      modifies this`at
      ensures Valid() && next == Captured()
      ensures old(Abs()).rest != [] && old(Abs()).rest[0] == cur.t && Abs() == Next(old(Abs()))
      ensures Tally(least, last) == Earlier(Tally(inums, last), cur.t)
    {
      least := if cur.t.schedule < inums then cur.t.schedule else inums;
      assert Abs().rest != [] && Abs().rest[0] == cur.t;
      hide Linked, Numbered, Values;
      next := Advance(cur);
    }

    /** The callback of the captured timer has asked to be called again. */
    method Again(cur: Node, start: nat, period: nat)
      requires Valid() && cur == Captured()
      modifies this`now, this`drift, cur`t
      ensures Valid() && old(Abs()).rest != [] && Abs() == Sample(Reschedule(old(Abs()), start, period))
      ensures Abs().rest != [] && cur.t == Abs().rest[0]
    {
      assert Abs().rest != [] && Abs().rest[0] == cur.t;
      hide Linked, Numbered, Values, Wrap;
      SetCaptured(cur, cur.t.(ticks := period, schedule := Wrap(start + period)));
      var _ := Clock();
    }

    /** The body of the loop, after the clock has been read, for a timer that has not been cleared. */
    method Serve(cur: Node, inums: nat, last: nat) returns (next: Node?, inums': nat, last': nat)
      requires Valid() && cur == Captured()
      modifies this, Own()
      ensures Valid() && next == Captured() && fresh(Own() - old(Own()))
      ensures old(Abs()).rest != [] && (Abs(), Tally(inums', last')) == Timers.Serve(old(Abs()), Tally(inums, last))
    {
      assert Abs().rest != [] && Abs().rest[0] == cur.t;
      hide Linked, Numbered, Values, Timers.CallHead, Wrap, RoundOf, Reschedule, Sample;
      var start, period := now, Period(cur.t);
      if start >= Wrap(cur.t.schedule - EARLY) {
        var ret := CallHead(cur);
        if ret == 0 {
          next := DestroyCaptured(cur);
          return next, inums, last;
        }
        Again(cur, start, period);
        last' := now;
      } else {
        last' := last;
      }
      next, inums' := Leave(cur, inums, last');
    }

    /** The loop of ape_timers_process */
    method WalkAll(first: Node?) returns (inums: nat, last: nat)
      requires Valid() && first == Captured()
      modifies this, Own()
      ensures Valid() && at == |nodes| && fresh(Own() - old(Own()))
      ensures (Abs(), Tally(inums, last)) == Walk(old(Abs()), Tally(U64 - 1, 0))
    {
      hide Linked, Numbered, Values, Timers.Serve, Sample;
      ghost var s := Abs();
      var cur := first;
      inums, last := U64 - 1, 0;
      while cur != null
        invariant Valid() && cur == Captured() && fresh(Own() - old(Own()))
        invariant Walk(Abs(), Tally(inums, last)) == Walk(s, Tally(U64 - 1, 0))
        decreases |Abs().rest|
      {
        HeadIsCaptured(cur);
        if cur.t.cleared {
          cur := DestroyCaptured(cur);
        } else {
          var _ := Clock();
          cur, inums, last := Serve(cur, inums, last);
        }
      }
    }

    /** cur = timers->head */
    method Capture() returns (cur: Node?)
      requires Valid() && at == |nodes|
      modifies this`at
      ensures Valid() && cur == Captured()
      ensures old(Abs()).rest == [] && Abs() == old(Abs()).(front := [], rest := old(Abs()).front)
    {
      Restart(Abs(), Values(nodes));
      at := 0;
      cur := head;
    }

    /** ape_timers_process */
    method Process(lowResolution: bool) returns (wait: int)
      requires Valid() && at == |nodes|
      modifies this, Own()
      ensures Valid() && at == |nodes| && fresh(Own() - old(Own()))
      ensures (Abs(), wait) == Pass(old(Abs()), lowResolution)
    {
      var cur := Capture();
      hide Valid, Abs, Timers.ProcessAsync, Walk, Sample, Wait;
      var inums, last := WalkBetween(cur);
      wait := HowLong(inums, last, lowResolution);
    }

    /** The walk, with the asyncs before and after it. */
    method WalkBetween(cur: Node?) returns (inums: nat, last: nat)
      requires Valid() && cur == Captured()
      modifies this, Own()
      ensures Valid() && at == |nodes| && fresh(Own() - old(Own()))
      ensures var (s, y) := Walk(Timers.ProcessAsync(old(Abs())), Tally(U64 - 1, 0));
        Abs() == Timers.ProcessAsync(s) && y == Tally(inums, last)
    {
      hide Linked, Numbered, Values, Timers.ProcessAsync, Walk;
      ProcessAsync(cur);
      inums, last := WalkAll(cur);
      ProcessAsync(null);
    }

    /** The end of ape_timers_process. */
    method HowLong(inums: nat, last: nat, lowResolution: bool) returns (wait: int)
      requires Valid() && Captured() == null
      modifies this`now, this`drift
      ensures Valid() && at == |nodes|
      ensures (Abs(), wait) ==
        if inums == U64 - 1 then (old(Abs()), RESOLUTION)
        else if last != 0 then (old(Abs()), Wait(inums, last, lowResolution))
        else (Sample(old(Abs())), Wait(inums, Sample(old(Abs())).now, lowResolution))
    {
      hide Linked, Numbered, Values, Sample, Wait;
      if inums == U64 - 1 {
        return RESOLUTION;
      }
      var time := last;
      if last == 0 {
        time := Clock();
      }
      wait := Wait(inums, time, lowResolution);
    }

    lemma HeadIsCaptured(cur: Node)
      requires Valid() && cur == Captured()
      ensures Abs().rest != [] && Abs().rest[0] == cur.t
    {
    }
  }

  /** A call from outside, or a pass of the loop. */
  method Handle(timers: TimerList, op: Theorems.Op)
    requires timers.Valid() && timers.at == |timers.nodes|
    modifies timers, timers.Own()
    ensures timers.Valid() && timers.at == |timers.nodes| && fresh(timers.Own() - old(timers.Own()))
    ensures old(timers.Abs()).rest == [] && timers.Abs() == Theorems.Step(old(timers.Abs()), op)
  {
    hide Linked, Numbered, Values, Pass, Act;
    match op
    case Call(a) => timers.Perform(a, null);
    case Process(low) => var _ := timers.Process(low);
  }

  /** Any run on a new list object: it ends up as the transitions say, so that what is proved of their
      runs holds of the object. */
  method Play(now: nat, drift: seq<nat>, ops: seq<Theorems.Op>) returns (timers: TimerList)
    ensures timers.Valid() && timers.Abs() == Theorems.Run(Theorems.NewTimers(now, drift), ops)
  {
    timers := new TimerList(now, drift);
    ghost var s := Theorems.NewTimers(now, drift);
    assert timers.Abs() == s;
    var i := 0;
    assert ops[0..] == ops;
    hide TimerList.Valid, TimerList.Abs, Theorems.Step;
    while i < |ops|
      invariant 0 <= i <= |ops|
      invariant fresh(timers) && fresh(timers.Own()) && timers.Valid() && timers.at == |timers.nodes|
      invariant s.rest == [] && timers.Abs() == s
      invariant Theorems.Run(s, ops[i..]) == Theorems.Run(Theorems.NewTimers(now, drift), ops)
    {
      assert ops[i..][0] == ops[i] && ops[i..][1..] == ops[i + 1..];
      Theorems.StepRest(s, ops[i]);
      s := Theorems.Step(s, ops[i]);
      Handle(timers, ops[i]);
      i := i + 1;
    }
  }

  lemma Restart(s: State, ts: seq<Timer>)
    requires Shows(s, ts, |ts|)
    ensures s.front == ts && s.rest == [] && ts[..0] == [] && ts[0..] == ts
  {
  }

  lemma NotDestroyed(ts: seq<Timer>, at: nat, id: nat)
    requires Unique(ts) && at <= |ts| && forall i :: 0 <= i < |ts| && i != at ==> ts[i].id != id
    ensures Find(ts[..at], id) == None && (at < |ts| ==> Find(ts[at..][1..], id) == None)
  {
    FindAbsent(ts[..at], id);
    if at < |ts| {
      FindAbsent(ts[at..][1..], id);
    }
  }
}
