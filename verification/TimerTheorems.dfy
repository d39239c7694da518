/** What holds of every timer over every run. */
module TimerTheorems {
  import opened Options
  import opened Timers

  // ---------- the life of a timer ----------

  /** Where a timer stands: how often it has run, whether it has been cleared, and whether its callback has
      returned 0. */
  datatype Life = Unborn | Alive(ran: nat, cleared: bool, over: bool) | Gone(ran: nat) {
    function Runs(): nat {
      if Unborn? then 0 else ran
    }
  }

  /** The events that may happen to a timer. One that is cleared, over, gone or not yet created does not run.
      clearfunc is called on an existing timer only, for one of three reasons, and is the last event of all:
      APE_timer_destroy has been called, the timer has been cleared, or its callback has returned 0. */
  function Live(l: Life, id: nat, e: Event): Option<Life> {
    if e.id != id then Some(l)
    else
      match (l, e)
      case (Unborn, Created(_, _, _)) => Some(Alive(0, false, false))
      case (Alive(ran, false, over), Marked(_)) => Some(Alive(ran, true, over))
      case (Alive(ran, false, false), Ran(_, _, ms)) => Some(Alive(ran + 1, false, ms == 0))
      case (Alive(ran, cleared, over), Removed(_, asked)) => if asked || cleared || over then Some(Gone(ran)) else None
      case _ => None
  }

  /** The life that a log tells; None if it tells of an event that must not happen. */
  function LifeIn(log: seq<Event>, id: nat): Option<Life> {
    if log == [] then Some(Unborn)
    else
      var k := |log| - 1;
      match LifeIn(log[..k], id)
      case None => None
      case Some(l) => Live(l, id, log[k])
  }

  /** A timer counts its time from a clock reading, and lets a number of nanoseconds pass. */
  datatype Pause = Pause(from: nat, span: nat)

  /** What a timer waits for after an event: from its creation on as long as its creator said, and from each
      call of its callback on as long as that one has returned, or as long as before in case of -1. */
  function Renewed(w: Option<Pause>, id: nat, e: Event): Option<Pause> {
    if e.id != id then w
    else
      match e
      case Created(_, at, ms) => Some(Pause(at, ms * 1000000 % 0x1_0000_0000_0000_0000))
      case Ran(_, at, ms) =>
        if ms != -1 then Some(Pause(at, ms * 1000000 % 0x1_0000_0000_0000_0000))
        else if w.Some? then Some(Pause(at, w.value.span))
        else None
      case _ => w
  }

  function PauseIn(log: seq<Event>, id: nat): Option<Pause> {
    if log == [] then None
    else
      var k := |log| - 1;
      Renewed(PauseIn(log[..k], id), id, log[k])
  }

  /** The time at which a wait is over. */
  function Ends(w: Pause): nat {
    (w.from + w.span) % 0x1_0000_0000_0000_0000
  }

  /** This event is no run of the timer before its wait is over, save for 150 microseconds. */
  predicate InTime(w: Option<Pause>, id: nat, e: Event) {
    e.Ran? && e.id == id && w.Some? ==> e.at >= (Ends(w.value) - 150000) % 0x1_0000_0000_0000_0000
  }

  /** No run of the timer comes before its wait is over. */
  predicate Paced(log: seq<Event>, id: nat) {
    if log == [] then true
    else
      var k := |log| - 1;
      Paced(log[..k], id) && InTime(PauseIn(log[..k], id), id, log[k])
  }

  lemma LogMore(log: seq<Event>, e: Event, id: nat)
    ensures LifeIn(log + [e], id) == match LifeIn(log, id) case None => None case Some(l) => Live(l, id, e)
    ensures PauseIn(log + [e], id) == Renewed(PauseIn(log, id), id, e)
    ensures Paced(log + [e], id) <==> Paced(log, id) && InTime(PauseIn(log, id), id, e)
  {
    assert (log + [e])[..|log|] == log;
  }

  // ---------- lists of timers ----------

  predicate Distinct(ts: seq<Timer>) {
    ts == [] || (Find(ts[1..], ts[0].id) == None && Distinct(ts[1..]))
  }

  lemma {:induction false} FindAppend(a: seq<Timer>, b: seq<Timer>, id: nat)
    ensures Find(a + b, id) == if Find(a, id).Some? then Find(a, id) else Find(b, id)
  {
    if a == [] {
      assert a + b == b;
    } else {
      assert (a + b)[1..] == a[1..] + b;
      FindAppend(a[1..], b, id);
    }
  }

  lemma {:induction false} FindId(ts: seq<Timer>, id: nat)
    ensures Find(ts, id).Some? ==> Find(ts, id).value.id == id
  {
    if ts != [] {
      FindId(ts[1..], id);
    }
  }

  lemma {:induction false} FindUpdate(ts: seq<Timer>, t: Timer, id: nat)
    ensures Find(Update(ts, t), id) == if id == t.id && Find(ts, id).Some? then Some(t) else Find(ts, id)
  {
    if ts != [] && ts[0].id != t.id {
      FindUpdate(ts[1..], t, id);
      assert ([ts[0]] + Update(ts[1..], t))[1..] == Update(ts[1..], t);
    } else if ts != [] {
      assert ([t] + ts[1..])[1..] == ts[1..];
    }
  }

  lemma {:induction false} FindDrop(ts: seq<Timer>, gone: nat, id: nat)
    requires Distinct(ts)
    ensures Find(Drop(ts, gone), id) == if id == gone then None else Find(ts, id)
  {
    if ts != [] && ts[0].id != gone {
      FindDrop(ts[1..], gone, id);
      assert ([ts[0]] + Drop(ts[1..], gone))[1..] == Drop(ts[1..], gone);
    }
  }

  /** Changing or dropping timers keeps them distinct. */
  lemma {:induction false} DistinctUpdate(ts: seq<Timer>, t: Timer)
    requires Distinct(ts)
    ensures Distinct(Update(ts, t))
  {
    if ts != [] && ts[0].id != t.id {
      DistinctUpdate(ts[1..], t);
      FindUpdate(ts[1..], t, ts[0].id);
      assert ([ts[0]] + Update(ts[1..], t))[1..] == Update(ts[1..], t);
    } else if ts != [] {
      assert ([t] + ts[1..])[1..] == ts[1..];
    }
  }

  lemma {:induction false} DistinctDrop(ts: seq<Timer>, gone: nat)
    requires Distinct(ts)
    ensures Distinct(Drop(ts, gone))
  {
    if ts != [] && ts[0].id != gone {
      DistinctDrop(ts[1..], gone);
      FindDrop(ts[1..], gone, ts[0].id);
      assert ([ts[0]] + Drop(ts[1..], gone))[1..] == Drop(ts[1..], gone);
    }
  }

  /** No identifier is on both lists. */
  ghost predicate Disjoint(a: seq<Timer>, b: seq<Timer>) {
    forall id: nat :: Find(a, id) == None || Find(b, id) == None
  }

  /** The state of the lists. */
  ghost predicate Lists(s: State) {
    Distinct(s.front) && Distinct(s.rest) && Disjoint(s.front, s.rest)
  }

  /** What the log tells about a timer is how the lists have it. The timer busy, if there is one, is
      just being run: its schedule is not up to date. */
  ghost predicate Told(s: State, busy: nat, id: nat) {
    var t := Find(s.All(), id);
    && Paced(s.log, id)
    && (t.Some? ==> 0 < id <= s.lastId)
    && match LifeIn(s.log, id)
       case None => false
       case Some(Unborn) => (id == 0 || id > s.lastId) && t == None && PauseIn(s.log, id) == None
       case Some(Gone(_)) => 0 < id <= s.lastId && t == None
       case Some(Alive(ran, cleared, over)) =>
         && t.Some? && t.value.cleared == cleared && PauseIn(s.log, id).Some?
         && (id != busy ==>
               && !over
               && t.value.ticks == PauseIn(s.log, id).value.span
               && t.value.schedule == Ends(PauseIn(s.log, id).value))
  }

  ghost predicate InvariantBut(s: State, busy: nat) {
    Lists(s) && forall id: nat :: Told(s, busy, id)
  }

  ghost predicate Invariant(s: State) {
    InvariantBut(s, 0)
  }

  /** A timer that has been passed keeps its schedule as long as it is there. */
  ghost predicate Steady(s: State, r: State, id: nat) {
    Find(s.front, id).Some? ==>
      match Find(r.front, id)
      case None => LifeIn(r.log, id).Some? && LifeIn(r.log, id).value.Gone?
      case Some(t) => t.schedule == Find(s.front, id).value.schedule
  }

  /** What the calls of a callback do to a timer: it does not run; it leaves rest only by being removed
      and never enters it; and as long as it is there it keeps its schedule. */
  ghost predicate Onward(s: State, r: State, id: nat) {
    && Steady(s, r, id)
    && LifeIn(s.log, id).Some? && LifeIn(r.log, id).Some?
    && var before, after := LifeIn(s.log, id).value, LifeIn(r.log, id).value;
       && after.Runs() == before.Runs()
       && (before.Gone? ==> after.Gone?) && (!before.Unborn? ==> !after.Unborn?)
       && (before.Alive? && after.Alive? ==> after.over == before.over)
       && (!before.Unborn? ==> PauseIn(r.log, id) == PauseIn(s.log, id))
       && match Find(r.rest, id)
          case None => Find(s.rest, id).Some? ==> after.Gone?
          case Some(t) =>
            && Find(s.rest, id).Some?
            && t.schedule == Find(s.rest, id).value.schedule && t.rounds == Find(s.rest, id).value.rounds
            && (Find(s.rest, id).value.cleared ==> t.cleared)
  }

  /** A step that keeps the invariant and moves every timer onward. */
  ghost predicate Steps(s: State, busy: nat, r: State) {
    InvariantBut(r, busy) && s.now <= r.now && forall id: nat :: Onward(s, r, id)
  }

  lemma StepsTrans(s: State, busy: nat, t: State, r: State)
    requires Steps(s, busy, t) && Steps(t, busy, r)
    ensures Steps(s, busy, r)
  {
    forall id: nat
      ensures Onward(s, r, id)
    {
      assert Onward(s, t, id) && Onward(t, r, id);
      Known(r, busy, id);
    }
  }

  lemma StepsNone(s: State, busy: nat)
    requires InvariantBut(s, busy)
    ensures Steps(s, busy, s)
  {
    forall id: nat
      ensures Onward(s, s, id)
    {
      assert Told(s, busy, id);
    }
  }

  /** What is known about one timer of a state. */
  lemma Known(s: State, busy: nat, id: nat)
    requires InvariantBut(s, busy)
    ensures Told(s, busy, id)
    ensures Find(s.All(), id) == if Find(s.front, id).Some? then Find(s.front, id) else Find(s.rest, id)
    ensures Find(s.front, id) == None || Find(s.rest, id) == None
    ensures Find(s.front, id).Some? ==> Find(s.front, id).value.id == id
    ensures Find(s.rest, id).Some? ==> Find(s.rest, id).value.id == id
  {
    assert Told(s, busy, id);
    FindAppend(s.front, s.rest, id);
    FindId(s.front, id);
    FindId(s.rest, id);
  }

  lemma CreateOne(s: State, busy: nat, ms: int, rounds: seq<Round>, id: nat)
    requires InvariantBut(s, busy)
    ensures var r := CreateTimer(s, ms, rounds);
      Told(r, busy, id) && Onward(s, r, id) && (Find(r.front, id) == None || Find(r.rest, id) == None)
  {
    hide LifeIn, PauseIn, Paced, Distinct, Wrap;
    var r := CreateTimer(s, ms, rounds);
    assert r.front[1..] == s.front;
    Known(s, busy, s.lastId + 1);
    Known(s, busy, id);
    FindAppend(r.front, r.rest, id);
    LogMore(s.log, Created(s.lastId + 1, Sample(s).now, ms), id);
    WrapIs(ms * MILLISECOND);
    WrapIs(r.now + Wrap(ms * MILLISECOND));
  }

  lemma WrapIs(x: int)
    ensures Wrap(x) == x % 0x1_0000_0000_0000_0000
  {
  }

  lemma CreateKeeps(s: State, busy: nat, ms: int, rounds: seq<Round>)
    requires InvariantBut(s, busy)
    ensures Steps(s, busy, CreateTimer(s, ms, rounds))
  {
    var r := CreateTimer(s, ms, rounds);
    Known(s, busy, s.lastId + 1);
    assert r.front[1..] == s.front && Distinct(r.front) && Distinct(r.rest);
    hide Told, Onward;
    forall id: nat
      ensures Told(r, busy, id) && Onward(s, r, id) && (Find(r.front, id) == None || Find(r.rest, id) == None)
    {
      CreateOne(s, busy, ms, rounds, id);
    }
  }

  /** t is a timer of s that is changed, but not in its identifier, its schedule or its rounds. */
  ghost predicate Changes(s: State, t: Timer, log: seq<Event>) {
    match Find(s.All(), t.id)
    case None => false
    case Some(u) =>
      && t.schedule == u.schedule && t.ticks == u.ticks && t.rounds == u.rounds
      && (u.cleared ==> t.cleared)
      && log == (if t.cleared && !u.cleared then s.log + [Marked(t.id)] else s.log)
  }

  lemma ChangeOne(s: State, busy: nat, t: Timer, log: seq<Event>, id: nat)
    requires InvariantBut(s, busy) && Changes(s, t, log)
    ensures var r := Changed(s, t).(log := log);
      Told(r, busy, id) && Onward(s, r, id) && (Find(r.front, id) == None || Find(r.rest, id) == None)
  {
    hide Update, PauseIn, LifeIn, Paced, Distinct;
    var r := Changed(s, t).(log := log);
    Known(s, busy, id);
    FindUpdate(s.front, t, id);
    FindUpdate(s.rest, t, id);
    FindAppend(r.front, r.rest, id);
    LogMore(s.log, Marked(t.id), id);
  }

  lemma ChangeKeeps(s: State, busy: nat, t: Timer, log: seq<Event>)
    requires InvariantBut(s, busy) && Changes(s, t, log)
    ensures Steps(s, busy, Changed(s, t).(log := log))
  {
    var r := Changed(s, t).(log := log);
    DistinctUpdate(s.front, t);
    DistinctUpdate(s.rest, t);
    hide Told, Onward, Changes, Distinct;
    forall id: nat
      ensures Told(r, busy, id) && Onward(s, r, id) && (Find(r.front, id) == None || Find(r.rest, id) == None)
    {
      ChangeOne(s, busy, t, log, id);
    }
  }

  lemma {:induction false} DropNone(ts: seq<Timer>, id: nat)
    requires Find(ts, id) == None
    ensures Drop(ts, id) == ts
  {
    if ts != [] {
      DropNone(ts[1..], id);
    }
  }

  /** A timer is removed from the list it is on. */
  function Without(s: State, gone: nat, asked: bool): State {
    s.(front := Drop(s.front, gone), rest := Drop(s.rest, gone), log := s.log + [Removed(gone, asked)])
  }

  /** There is a reason to remove this timer. */
  predicate Spent(s: State, id: nat) {
    match LifeIn(s.log, id)
    case Some(Alive(_, cleared, over)) => cleared || over
    case _ => false
  }

  lemma RemoveOne(s: State, busy: nat, gone: nat, asked: bool, id: nat)
    requires InvariantBut(s, busy) && Find(s.All(), gone).Some? && (asked || Spent(s, gone))
    ensures var r := Without(s, gone, asked);
      Told(r, busy, id) && Onward(s, r, id) && (Find(r.front, id) == None || Find(r.rest, id) == None)
  {
    hide Drop, PauseIn, LifeIn, Paced, Distinct;
    var r := Without(s, gone, asked);
    Known(s, busy, id);
    FindDrop(s.front, gone, id);
    FindDrop(s.rest, gone, id);
    FindAppend(r.front, r.rest, id);
    LogMore(s.log, Removed(gone, asked), id);
    LogMore(s.log, Removed(gone, asked), gone);
  }

  lemma RemoveKeeps(s: State, busy: nat, gone: nat, asked: bool)
    requires InvariantBut(s, busy) && Find(s.All(), gone).Some? && (asked || Spent(s, gone))
    ensures Steps(s, busy, Without(s, gone, asked))
  {
    var r := Without(s, gone, asked);
    DistinctDrop(s.front, gone);
    DistinctDrop(s.rest, gone);
    hide Told, Onward, Without, Distinct;
    forall id: nat
      ensures Told(r, busy, id) && Onward(s, r, id) && (Find(r.front, id) == None || Find(r.rest, id) == None)
    {
      RemoveOne(s, busy, gone, asked, id);
    }
  }

  lemma DestroyKeeps(s: State, busy: nat, gone: nat)
    requires InvariantBut(s, busy)
    ensures Steps(s, busy, DestroyTimer(s, gone))
  {
    Known(s, busy, gone);
    if Find(s.front, gone).Some? {
      DropNone(s.rest, gone);
      RemoveKeeps(s, busy, gone, true);
    } else if s.rest != [] && Find(s.rest[1..], gone).Some? {
      DropNone(s.front, gone);
      assert s.rest[0].id != gone;
      RemoveKeeps(s, busy, gone, true);
    } else {
      StepsNone(s, busy);
    }
  }

  lemma RemoveHeadKeeps(s: State, busy: nat)
    requires InvariantBut(s, busy) && s.rest != [] && Spent(s, s.rest[0].id)
    ensures Steps(s, busy, RemoveHead(s))
  {
    var gone := s.rest[0].id;
    Known(s, busy, gone);
    DropNone(s.front, gone);
    RemoveKeeps(s, busy, gone, false);
  }

  lemma AsyncsKeep(s: State, busy: nat, asyncs: seq<Deferral>, last: nat, fired: seq<nat>)
    requires InvariantBut(s, busy)
    ensures Steps(s, busy, s.(asyncs := asyncs, lastAsync := last, fired := fired))
  {
    StepsNone(s, busy);
    var r := s.(asyncs := asyncs, lastAsync := last, fired := fired);
    forall id: nat
      ensures Told(r, busy, id) && Onward(s, r, id)
    {
      assert Told(s, busy, id) && Onward(s, s, id);
    }
  }

  lemma ActKeeps(s: State, busy: nat, a: Action)
    requires InvariantBut(s, busy)
    ensures Steps(s, busy, Act(s, a))
  {
    match a
    case Create(ms, rounds) => CreateKeeps(s, busy, ms, rounds);
    case Clear(id, force) =>
      var t := Find(s.All(), id);
      if t.Some? && !(t.value.guarded && !force) {
        Known(s, busy, id);
        var u := t.value.(cleared := true);
        ChangeKeeps(s, busy, u, ClearTimer(s, id, force).log);
      } else {
        StepsNone(s, busy);
      }
    case Unprotect(id) =>
      if Find(s.All(), id).Some? {
        Known(s, busy, id);
        ChangeKeeps(s, busy, Find(s.All(), id).value.(guarded := false), s.log);
      } else {
        StepsNone(s, busy);
      }
    case Destroy(id) => DestroyKeeps(s, busy, id);
    case Async(actions) => AsyncsKeep(s, busy, Defer(s, actions).asyncs, s.lastAsync + 1, s.fired);
  }

  lemma {:induction false} ActAllKeeps(s: State, busy: nat, actions: seq<Action>)
    requires InvariantBut(s, busy)
    ensures Steps(s, busy, ActAll(s, actions))
    decreases |actions|
  {
    hide InvariantBut, Onward, Act;
    if actions == [] {
      StepsNone(s, busy);
    } else {
      ActKeeps(s, busy, actions[0]);
      ActAllKeeps(Act(s, actions[0]), busy, actions[1..]);
      StepsTrans(s, busy, Act(s, actions[0]), ActAll(s, actions));
    }
  }

  lemma FireKeeps(s: State, busy: nat, d: Deferral)
    requires InvariantBut(s, busy)
    ensures Steps(s, busy, Fire(s, d))
  {
    var t := s.(fired := s.fired + [d.n]);
    AsyncsKeep(s, busy, s.asyncs, s.lastAsync, t.fired);
    ActAllKeeps(t, busy, d.actions);
    StepsTrans(s, busy, t, Fire(s, d));
  }

  lemma {:induction false} RunAsyncsKeeps(s: State, busy: nat, batch: seq<Deferral>)
    requires InvariantBut(s, busy)
    ensures Steps(s, busy, RunAsyncs(s, batch))
    decreases |batch|
  {
    hide InvariantBut, Onward, Fire;
    if batch == [] {
      StepsNone(s, busy);
    } else {
      FireKeeps(s, busy, batch[0]);
      RunAsyncsKeeps(Fire(s, batch[0]), busy, batch[1..]);
      StepsTrans(s, busy, Fire(s, batch[0]), RunAsyncs(s, batch));
    }
  }

  lemma ProcessAsyncKeeps(s: State, busy: nat)
    requires InvariantBut(s, busy)
    ensures Steps(s, busy, ProcessAsync(s))
  {
    AsyncsKeep(s, busy, [], s.lastAsync, s.fired);
    RunAsyncsKeeps(s.(asyncs := []), busy, s.asyncs);
    StepsTrans(s, busy, s.(asyncs := []), ProcessAsync(s));
  }

  lemma SampleKeeps(s: State, busy: nat)
    requires InvariantBut(s, busy)
    ensures Steps(s, busy, Sample(s))
  {
    StepsNone(s, busy);
    var r := Sample(s);
    forall id: nat
      ensures Told(r, busy, id) && Onward(s, r, id)
    {
      assert Told(s, busy, id) && Onward(s, s, id);
    }
  }

  // ---------- one pass ----------

  /** What the loop does to a timer, from s to r. */
  ghost predicate Visited(s: State, r: State, id: nat) {
    && Steady(s, r, id)
    && LifeIn(s.log, id).Some? && LifeIn(r.log, id).Some?
    && var before, after := LifeIn(s.log, id).value, LifeIn(r.log, id).value;
       && before.Runs() <= after.Runs() <= before.Runs() + 1
       && (before.Gone? ==> after == before) && (!before.Unborn? ==> !after.Unborn?)
       && match Find(s.rest, id)
          case None => after.Runs() == before.Runs()
          case Some(t) =>
            && (t.cleared ==> after == Gone(before.Runs()))
            && (Due(t, s.now) && after.Alive? ==> after.Runs() == before.Runs() + 1)
  }

  ghost predicate Walked(s: State, r: State) {
    Invariant(r) && s.now <= r.now && r.rest == [] && forall id: nat :: Visited(s, r, id)
  }

  /** A callback in between, or going over a timer that is not run. */
  lemma StepsWalked(s: State, t: State, r: State)
    requires Steps(s, 0, t) && Walked(t, r)
    ensures Walked(s, r)
  {
    forall id: nat
      ensures Visited(s, r, id)
    {
      assert Onward(s, t, id) && Visited(t, r, id);
      Known(r, 0, id);
    }
  }

  /** The head of rest is on no other list. */
  lemma HeadAlone(s: State, busy: nat)
    requires InvariantBut(s, busy) && s.rest != []
    ensures var id := s.rest[0].id;
      Find(s.rest, id) == Some(s.rest[0]) && Find(s.rest[1..], id) == None && Find(s.front, id) == None
  {
    assert Find(s.rest, s.rest[0].id) == Some(s.rest[0]);
  }

  /** The lists on the way to the next timer. */
  lemma NextLists(s: State, id: nat)
    requires Lists(s) && s.rest != []
    ensures Find(Next(s).All(), id) == Find(s.All(), id)
    ensures Find(Next(s).front, id) == if id == s.rest[0].id then Some(s.rest[0]) else Find(s.front, id)
    ensures Find(Next(s).rest, id) == if id == s.rest[0].id then None else Find(s.rest, id)
  {
    var t := s.rest[0];
    assert Next(s).All() == s.All();
    FindAppend(s.front, [t], id);
    assert Find([t], id) == if id == t.id then Some(t) else None;
    assert Find(s.front, t.id) == None || Find(s.rest, t.id) == None;
  }

  lemma {:induction false} DistinctSnoc(ts: seq<Timer>, t: Timer)
    requires Distinct(ts) && Find(ts, t.id) == None
    ensures Distinct(ts + [t])
  {
    if ts == [] {
      assert [] + [t] == [t] && [t][1..] == [];
    } else {
      assert (ts + [t])[1..] == ts[1..] + [t];
      DistinctSnoc(ts[1..], t);
      FindAppend(ts[1..], [t], ts[0].id);
    }
  }

  lemma NextKeeps(s: State)
    requires Invariant(s) && s.rest != []
    ensures Invariant(Next(s))
  {
    HeadAlone(s, 0);
    DistinctSnoc(s.front, s.rest[0]);
    forall id: nat
      ensures Told(Next(s), 0, id) && (Find(Next(s).front, id) == None || Find(Next(s).rest, id) == None)
    {
      NextLists(s, id);
      assert Told(s, 0, id);
    }
  }

  /** A timer that is not due is passed over. */
  lemma NextWalked(s: State, r: State)
    requires Invariant(s) && s.rest != [] && !s.rest[0].cleared && !Due(s.rest[0], s.now)
    requires Walked(Next(s), r)
    ensures Walked(s, r)
  {
    forall id: nat
      ensures Visited(s, r, id)
    {
      NextLists(s, id);
      assert Visited(Next(s), r, id);
    }
  }

  /** The captured timer has been run and left behind; the others have moved onward. */
  ghost predicate RanStep(s: State, r: State, id: nat) {
    && LifeIn(s.log, id).Some? && LifeIn(r.log, id).Some?
    && var before, after := LifeIn(s.log, id).value, LifeIn(r.log, id).value;
       && (s.rest != [] && id == s.rest[0].id ==>
             after.Runs() == before.Runs() + 1 && Find(r.rest, id) == None && before.Alive?)
       && (s.rest != [] && id != s.rest[0].id ==> Onward(s, r, id))
  }

  lemma RanWalked(s: State, t: State, r: State)
    requires Invariant(s) && s.rest != [] && !s.rest[0].cleared && s.now <= t.now
    requires (forall id: nat :: RanStep(s, t, id)) && Walked(t, r)
    ensures Walked(s, r)
  {
    HeadAlone(s, 0);
    forall id: nat
      ensures Visited(s, r, id)
    {
      assert RanStep(s, t, id) && Visited(t, r, id);
      Known(r, 0, id);
    }
  }

  /** The captured timer as its callback is called. */
  function Called(s: State): State
    requires s.rest != []
  {
    var t := s.rest[0];
    s.(rest := [t.(rounds := if t.rounds == [] then [] else t.rounds[1..])] + s.rest[1..],
       log := s.log + [Ran(t.id, s.now, RoundOf(t).ret)])
  }

  /** With the timer at the head of rest replaced. */
  lemma HeadReplaced(s: State, t: Timer, id: nat)
    requires s.rest != [] && s.rest[0].id == t.id && Lists(s)
    ensures var r := s.(rest := [t] + s.rest[1..]);
      && Lists(r)
      && Find(r.rest, id) == (if id == t.id then Some(t) else Find(s.rest, id))
      && Find(r.All(), id) == (if id == t.id then Some(t) else Find(s.All(), id))
  {
    var r := s.(rest := [t] + s.rest[1..]);
    assert r.rest[1..] == s.rest[1..];
    forall i: nat
      ensures Find(r.rest, i) == if i == t.id then Some(t) else Find(s.rest, i)
    {
    }
    FindAppend(s.front, s.rest, id);
    FindAppend(r.front, r.rest, id);
    assert Find(s.front, t.id) == None || Find(s.rest, t.id) == None;
  }

  ghost predicate CalledLife(s: State, id: nat)
    requires s.rest != []
  {
    && LifeIn(s.log, id).Some?
    && LifeIn(Called(s).log, id)
       == (if id == s.rest[0].id then
             Some(Alive(LifeIn(s.log, id).value.Runs() + 1, false, RoundOf(s.rest[0]).ret == 0))
           else LifeIn(s.log, id))
  }

  lemma CalledOne(s: State, id: nat)
    requires Invariant(s) && s.rest != [] && !s.rest[0].cleared && Due(s.rest[0], s.now)
    ensures var t, r := s.rest[0], Called(s);
      && Lists(r) && Told(r, t.id, id) && CalledLife(s, id)
      && (id != t.id ==> Onward(s, r, id))
      && (id == t.id ==> PauseIn(r.log, id) == Some(Pause(s.now, Period(t))) && LifeIn(s.log, id).value.Alive?)
  {
    hide LifeIn, PauseIn, Paced;
    var t := s.rest[0];
    Known(s, 0, id);
    HeadAlone(s, 0);
    HeadReplaced(s, Called(s).rest[0], id);
    LogMore(s.log, Ran(t.id, s.now, RoundOf(t).ret), id);
  }

  lemma CalledKeeps(s: State)
    requires Invariant(s) && s.rest != [] && !s.rest[0].cleared && Due(s.rest[0], s.now)
    ensures InvariantBut(Called(s), s.rest[0].id)
    ensures forall id: nat :: CalledLife(s, id)
    ensures PauseIn(Called(s).log, s.rest[0].id) == Some(Pause(s.now, Period(s.rest[0])))
    ensures forall id: nat :: id != s.rest[0].id ==> Onward(s, Called(s), id)
    ensures LifeIn(s.log, s.rest[0].id).Some? && LifeIn(s.log, s.rest[0].id).value.Alive?
  {
    hide LifeIn, PauseIn, Called, Onward, Told, Invariant, Lists;
    var busy := s.rest[0].id;
    CalledOne(s, busy);
    assert CalledLife(s, busy);
    forall id: nat
      ensures Told(Called(s), busy, id) && CalledLife(s, id) && (id != busy ==> Onward(s, Called(s), id))
    {
      CalledOne(s, id);
    }
  }

  lemma RescheduleKeeps(s: State, start: nat, period: nat)
    requires s.rest != [] && InvariantBut(s, s.rest[0].id)
    requires PauseIn(s.log, s.rest[0].id) == Some(Pause(start, period))
    requires match LifeIn(s.log, s.rest[0].id)
             case Some(Alive(_, _, over)) => !over
             case _ => false
    ensures Invariant(Reschedule(s, start, period))
  {
    var r, busy := Reschedule(s, start, period), s.rest[0].id;
    HeadReplaced(s, r.rest[0], busy);
    forall id: nat
      ensures Told(r, 0, id)
    {
      Known(s, busy, id);
      HeadAlone(s, busy);
      HeadReplaced(s, r.rest[0], id);
    }
  }

  /** A timer that is gone needs no exemption. */
  lemma BusyGone(s: State, busy: nat)
    requires InvariantBut(s, busy) && Find(s.All(), busy) == None
    ensures Invariant(s)
  {
    forall id: nat
      ensures Told(s, 0, id)
    {
      assert Told(s, busy, id);
    }
  }

  /** From the call to the return of the callback. */
  lemma CallHeadKeeps(s: State)
    requires Invariant(s) && s.rest != [] && !s.rest[0].cleared && Due(s.rest[0], s.now)
    ensures var h, t := s.rest[0].id, CallHead(s);
      && InvariantBut(t, h) && s.now <= t.now
      && PauseIn(t.log, h) == Some(Pause(s.now, Period(s.rest[0])))
      && (forall id: nat :: id != h ==> Onward(s, t, id))
      && LifeIn(s.log, h).Some? && LifeIn(t.log, h).Some? && LifeIn(s.log, h).value.Alive?
      && LifeIn(t.log, h).value.Runs() == LifeIn(s.log, h).value.Runs() + 1
      && LifeIn(t.log, h).value.Alive? && LifeIn(t.log, h).value.over == (RoundOf(s.rest[0]).ret == 0)
  {
    var h, c := s.rest[0].id, Called(s);
    CalledKeeps(s);
    ActAllKeeps(c, h, RoundOf(s.rest[0]).actions);
    var t := CallHead(s);
    assert t == ActAll(c, RoundOf(s.rest[0]).actions);
    assert Onward(c, t, h) && CalledLife(s, h);
    HeadAlone(t, h);
    Known(t, h, h);
    forall id: nat | id != h
      ensures Onward(s, t, id)
    {
      assert Onward(s, c, id) && Onward(c, t, id);
      Known(t, h, id);
    }
  }

  /** The callback returns 0. */
  lemma RunRemoved(s: State)
    requires Invariant(s) && s.rest != [] && !s.rest[0].cleared && Due(s.rest[0], s.now)
    requires RoundOf(s.rest[0]).ret == 0
    ensures var t := RemoveHead(CallHead(s));
      Invariant(t) && s.now <= t.now && forall id: nat :: RanStep(s, t, id)
  {
    var h, u := s.rest[0].id, CallHead(s);
    CallHeadKeeps(s);
    RemoveHeadKeeps(u, h);
    var t := RemoveHead(u);
    HeadAlone(u, h);
    FindAppend(t.front, t.rest, h);
    BusyGone(t, h);
    forall id: nat
      ensures RanStep(s, t, id)
    {
      assert Onward(u, t, id);
      assert id != h ==> Onward(s, u, id);
    }
  }

  /** The callback asks to be called again. */
  lemma RunKept(s: State)
    requires Invariant(s) && s.rest != [] && !s.rest[0].cleared && Due(s.rest[0], s.now)
    requires RoundOf(s.rest[0]).ret != 0
    ensures var t := Next(Sample(Reschedule(CallHead(s), s.now, Period(s.rest[0]))));
      Invariant(t) && s.now <= t.now && forall id: nat :: RanStep(s, t, id)
  {
    var h, u := s.rest[0].id, CallHead(s);
    CallHeadKeeps(s);
    var v := Reschedule(u, s.now, Period(s.rest[0]));
    RescheduleKeeps(u, s.now, Period(s.rest[0]));
    SampleKeeps(v, 0);
    var w := Sample(v);
    NextKeeps(w);
    forall id: nat
      ensures RanStep(s, Next(w), id)
    {
      HeadReplaced(u, v.rest[0], id);
      NextLists(w, id);
      assert id != h ==> Onward(s, u, id);
    }
  }

  lemma NothingLeft(s: State)
    requires Invariant(s) && s.rest == []
    ensures Walked(s, s)
  {
    forall id: nat
      ensures Visited(s, s, id)
    {
      assert Told(s, 0, id);
    }
  }

  lemma ServeKeeps(s: State, y: Tally)
    requires Invariant(s) && s.rest != [] && !s.rest[0].cleared
    ensures Invariant(Serve(s, y).0)
  {
    if !Due(s.rest[0], s.now) {
      NextKeeps(s);
    } else if RoundOf(s.rest[0]).ret == 0 {
      RunRemoved(s);
    } else {
      RunKept(s);
    }
  }

  lemma ServeWalked(s: State, y: Tally, r: State)
    requires Invariant(s) && s.rest != [] && !s.rest[0].cleared && Walked(Serve(s, y).0, r)
    ensures Walked(s, r)
  {
    hide Invariant, CallHead, Walked;
    var t := Serve(s, y).0;
    if !Due(s.rest[0], s.now) {
      NextWalked(s, r);
    } else {
      if RoundOf(s.rest[0]).ret == 0 {
        RunRemoved(s);
      } else {
        RunKept(s);
      }
      RanWalked(s, t, r);
    }
  }

  lemma {:induction false} WalkKeeps(s: State, y: Tally)
    requires Invariant(s)
    ensures Walked(s, Walk(s, y).0)
    decreases |s.rest|
  {
    hide Invariant, InvariantBut, Serve, Walked;
    var r := Walk(s, y).0;
    FromInvariant(s);
    if s.rest == [] {
      NothingLeft(s);
    } else if s.rest[0].cleared {
      ClearedSpent(s);
      RemoveHeadKeeps(s, 0);
      ToInvariant(RemoveHead(s));
      WalkKeeps(RemoveHead(s), y);
      StepsWalked(s, RemoveHead(s), r);
    } else {
      var s1 := Sample(s);
      SampleKeeps(s, 0);
      ToInvariant(s1);
      ServeKeeps(s1, y);
      WalkKeeps(Serve(s1, y).0, Serve(s1, y).1);
      ServeWalked(s1, y, r);
      StepsWalked(s, s1, r);
    }
  }

  /** A cleared timer may be removed. */
  lemma ClearedSpent(s: State)
    requires Invariant(s) && s.rest != [] && s.rest[0].cleared
    ensures Spent(s, s.rest[0].id)
  {
    Known(s, 0, s.rest[0].id);
    HeadAlone(s, 0);
  }

  lemma ToInvariant(s: State)
    requires InvariantBut(s, 0)
    ensures Invariant(s)
  {
  }

  lemma FromInvariant(s: State)
    requires Invariant(s)
    ensures InvariantBut(s, 0)
  {
  }

  /** What a pass does to a timer: it runs at most once; never if it was created in the pass, or had
      been cleared before, in which case it is removed; and if it was due when the pass began, then it
      has run, unless it is gone. */
  ghost predicate Passed(s: State, r: State, id: nat) {
    && LifeIn(s.log, id).Some? && LifeIn(r.log, id).Some?
    && var before, after := LifeIn(s.log, id).value, LifeIn(r.log, id).value;
       && before.Runs() <= after.Runs() <= before.Runs() + 1
       && (before.Unborn? || before.Gone? ==> after.Runs() == before.Runs())
       && (before.Alive? && before.cleared ==> after == Gone(before.ran))
       && match Find(s.front, id)
          case None => !before.Alive?
          case Some(t) =>
            150000 <= t.schedule <= s.now + 150000 && after.Alive? ==> after.Runs() == before.Runs() + 1
  }

  /** The state in which a pass begins: the whole list is still to be walked. */
  function Begun(s: State): State {
    s.(front := [], rest := s.front)
  }

  lemma BegunKeeps(s: State)
    requires Invariant(s) && s.rest == []
    ensures Invariant(Begun(s))
  {
    assert Begun(s).All() == s.front == s.All();
    forall id: nat
      ensures Told(Begun(s), 0, id)
    {
      assert Told(s, 0, id);
    }
  }

  /** ape_timers_process ends, whatever the callbacks do, and treats every timer as it should. */
  lemma PassKeeps(s: State, low: bool)
    requires Invariant(s) && s.rest == []
    ensures var r := Pass(s, low).0;
      Invariant(r) && r.rest == [] && s.now <= r.now && forall id: nat :: Passed(s, r, id)
  {
    var a := Begun(s);
    BegunKeeps(s);
    var b := ProcessAsync(a);
    ProcessAsyncKeeps(a, 0);
    var (c, y) := Walk(b, Tally(U64 - 1, 0));
    WalkKeeps(b, Tally(U64 - 1, 0));
    StepsWalked(a, b, c);
    var d := ProcessAsync(c);
    ProcessAsyncKeeps(c, 0);
    SampleKeeps(d, 0);
    var r := Pass(s, low).0;
    assert r == d || r == Sample(d);
    StepsNone(d, 0);
    StepsTrans(c, 0, d, r);
    hide Visited, Onward, Passed, Told, Lists;
    forall id: nat
      ensures Passed(s, r, id)
    {
      assert Visited(a, c, id) && Onward(c, r, id) && Told(s, 0, id);
      PassedOne(s, c, r, id);
    }
  }

  lemma PassedOne(s: State, c: State, r: State, id: nat)
    requires s.rest == [] && Told(s, 0, id) && Visited(Begun(s), c, id) && Onward(c, r, id)
    ensures Passed(s, r, id)
  {
    assert s.All() == s.front;
  }

  // ---------- whole runs ----------

  /** A call from outside, or a pass of the loop. */
  datatype Op = Call(action: Action) | Process(lowResolution: bool)

  function Step(s: State, op: Op): State
    requires s.rest == []
  {
    match op
    case Call(a) => Act(s, a)
    case Process(low) => Pass(s, low).0
  }

  function Run(s: State, ops: seq<Op>): State
    requires s.rest == []
    decreases |ops|
  {
    if ops == [] then s
    else
      StepRest(s, ops[0]);
      Run(Step(s, ops[0]), ops[1..])
  }

  lemma StepRest(s: State, op: Op)
    requires s.rest == []
    ensures Step(s, op).rest == []
  {
    match op
    case Call(a) => ActRest(s, a);
    case Process(low) =>
  }

  function NewTimers(now: nat, drift: seq<nat>): State {
    State([], [], [], 0, [], 0, now, drift, [])
  }

  lemma NewKeeps(now: nat, drift: seq<nat>)
    ensures Invariant(NewTimers(now, drift))
  {
    var s := NewTimers(now, drift);
    forall id: nat
      ensures Told(s, 0, id)
    {
      assert s.All() == [];
    }
  }

  lemma {:induction false} RunKeeps(s: State, ops: seq<Op>)
    requires Invariant(s) && s.rest == []
    ensures Invariant(Run(s, ops)) && Run(s, ops).rest == []
    decreases |ops|
  {
    hide Invariant, Passed, Pass, Act;
    if ops != [] {
      StepRest(s, ops[0]);
      match ops[0] {
        case Call(a) =>
          FromInvariant(s);
          ActKeeps(s, 0, a);
          ToInvariant(Act(s, a));
        case Process(low) => PassKeeps(s, low);
      }
      RunKeeps(Step(s, ops[0]), ops[1..]);
    }
  }

  /** Over every run, with any callbacks, the log is legal for every timer: it never runs before it is
      created, after it has been cleared, after its callback has returned 0 or after it has been removed;
      clearfunc is called for it exactly once, and for a reason, if it is no longer on the list and not at
      all if it is; no run comes before the wait is over, and the schedule is the end of that wait. */
  lemma EveryLife(now: nat, drift: seq<nat>, ops: seq<Op>, id: nat)
    ensures var r := Run(NewTimers(now, drift), ops);
      && Paced(r.log, id)
      && match LifeIn(r.log, id)
         case None => false
         case Some(Unborn) => (id == 0 || id > r.lastId) && Find(r.front, id) == None
         case Some(Alive(_, cleared, over)) =>
           && Find(r.front, id).Some? && Find(r.front, id).value.cleared == cleared && !over
           && PauseIn(r.log, id).Some? && Find(r.front, id).value.schedule == Ends(PauseIn(r.log, id).value)
         case Some(Gone(_)) => 0 < id <= r.lastId && Find(r.front, id) == None
  {
    var s := NewTimers(now, drift);
    NewKeeps(now, drift);
    RunKeeps(s, ops);
    var r := Run(s, ops);
    assert Told(r, 0, id) && r.All() == r.front;
  }

  predicate IsRemoval(e: Event, id: nat) {
    e.Removed? && e.id == id
  }

  /** How many of the events are removals of this timer. */
  function Removals(log: seq<Event>, id: nat): nat {
    if log == [] then 0
    else Removals(log[..|log| - 1], id) + if IsRemoval(log[|log| - 1], id) then 1 else 0
  }

  /** This event stops the timer: it is marked or removed, or its callback returns 0. */
  predicate Stops(e: Event, id: nat) {
    e.id == id && (e.Marked? || e.Removed? || (e.Ran? && e.ms == 0))
  }

  /** What a legal log means: nothing runs after an event that stops it, clearfunc is called once if the
      timer is gone and never otherwise, and only if the timer was stopped before or APE_timer_destroy was
      called. */
  lemma {:induction false} LegalLog(log: seq<Event>, id: nat)
    requires LifeIn(log, id).Some?
    ensures Removals(log, id) == if LifeIn(log, id).value.Gone? then 1 else 0
    ensures forall i, j :: 0 <= i < j < |log| && Stops(log[i], id) && log[j].Ran? ==> log[j].id != id
    ensures forall j :: 0 <= j < |log| && IsRemoval(log[j], id) && !log[j].asked ==>
      exists i :: 0 <= i < j && Stops(log[i], id)
    ensures (exists i :: 0 <= i < |log| && Stops(log[i], id)) <==> Stopped(LifeIn(log, id).value)
  {
    if log != [] {
      var k := |log| - 1;
      LegalLog(log[..k], id);
      LegalStep(log, id);
      forall j | 0 <= j < |log| && IsRemoval(log[j], id) && !log[j].asked
        ensures exists i :: 0 <= i < j && Stops(log[i], id)
      {
        var i :| 0 <= i < j && Stops(log[..k][i], id);
        assert Stops(log[i], id);
      }
    }
  }

  predicate Stopped(l: Life) {
    l.Gone? || (l.Alive? && (l.cleared || l.over))
  }

  lemma LegalStep(log: seq<Event>, id: nat)
    requires log != [] && LifeIn(log, id).Some?
    ensures var k := |log| - 1;
      && LifeIn(log[..k], id).Some?
      && var before, after := LifeIn(log[..k], id).value, LifeIn(log, id).value;
         && (Stopped(after) <==> Stopped(before) || Stops(log[k], id))
         && (IsRemoval(log[k], id) ==> after.Gone? && !before.Gone? && (log[k].asked || Stopped(before)))
         && (!IsRemoval(log[k], id) ==> (after.Gone? <==> before.Gone?))
         && (log[k].Ran? && log[k].id == id ==> !Stopped(before))
  {
  }

  /** i is the last event from which the timer counts its time, and g, which is i or comes before it, the
      last one that says for how long: the callback has returned -1 ever since. */
  predicate Sets(log: seq<Event>, id: nat, g: nat, i: nat) {
    && g <= i < |log|
    && Renews(log[g], id) && Renews(log[i], id)
    && !(log[g].Ran? && log[g].ms == -1)
    && (forall k :: g < k <= i && Renews(log[k], id) ==> log[k].Ran? && log[k].ms == -1)
    && (forall k :: i < k < |log| ==> !Renews(log[k], id))
  }

  predicate Renews(e: Event, id: nat) {
    (e.Created? || e.Ran?) && e.id == id
  }

  lemma {:induction false} PauseAt(log: seq<Event>, id: nat, g: nat, i: nat)
    requires Sets(log, id, g, i)
    ensures PauseIn(log, id) == Some(Pause(log[i].at, log[g].ms * 1000000 % 0x1_0000_0000_0000_0000))
    decreases |log|
  {
    var k := |log| - 1;
    if i < k {
      PauseAt(log[..k], id, g, i);
    } else if g < k {
      var j := LastBefore(log, id, g, k);
      PauseAt(log[..k], id, g, j);
    }
  }

  /** The last event before i from which the timer counts its time. */
  lemma {:induction false} LastBefore(log: seq<Event>, id: nat, g: nat, i: nat) returns (j: nat)
    requires g < i < |log| && Renews(log[g], id)
    ensures g <= j < i && Renews(log[j], id) && forall k :: j < k < i ==> !Renews(log[k], id)
    decreases i
  {
    if g + 1 == i || Renews(log[i - 1], id) {
      j := i - 1;
    } else {
      j := LastBefore(log, id, g, i - 1);
    }
  }

  /** No timer runs too early. Event j is a run of the timer; it was last created or run at event i, and
      event g has said for how many milliseconds to wait: it is the creation, or else a run whose callback
      returned them. */
  lemma Refire(log: seq<Event>, id: nat, g: nat, i: nat, j: nat)
    requires Paced(log, id) && j < |log| && log[j].Ran? && log[j].id == id
    requires Sets(log[..j], id, g, i)
    requires log[g].ms >= 0 && log[i].at + log[g].ms * 1000000 < 0x1_0000_0000_0000_0000
    ensures log[j].at >= log[i].at + log[g].ms * 1000000 - 150000
  {
    PacedAt(log, id, j);
    PauseAt(log[..j], id, g, i);
    NotWrapped(log[i].at, log[g].ms);
  }

  lemma {:induction false} PacedAt(log: seq<Event>, id: nat, j: nat)
    requires Paced(log, id) && j < |log|
    ensures InTime(PauseIn(log[..j], id), id, log[j])
  {
    var k := |log| - 1;
    if j < k {
      PacedAt(log[..k], id, j);
      assert log[..k][..j] == log[..j];
    }
  }

  /** Without wrapping, the end of the wait is what it seems; below 150000 the difference wraps to more. */
  lemma NotWrapped(at: nat, ms: nat)
    requires at + ms * 1000000 < 0x1_0000_0000_0000_0000
    ensures (Ends(Pause(at, ms * 1000000 % 0x1_0000_0000_0000_0000)) - 150000) % 0x1_0000_0000_0000_0000
            >= at + ms * 1000000 - 150000
  {
  }

  /** The schedule of every timer on the list, after every run. */
  lemma Schedules(now: nat, drift: seq<nat>, ops: seq<Op>, id: nat, g: nat, i: nat)
    requires var r := Run(NewTimers(now, drift), ops); Find(r.front, id).Some? && Sets(r.log, id, g, i)
    ensures var r := Run(NewTimers(now, drift), ops);
      Find(r.front, id).value.schedule == (r.log[i].at + r.log[g].ms * 1000000) % 0x1_0000_0000_0000_0000
  {
    EveryLife(now, drift, ops, id);
    var log := Run(NewTimers(now, drift), ops).log;
    PauseAt(log, id, g, i);
    Summed(log[i].at, log[g].ms * 1000000);
  }

  lemma Summed(a: int, b: int)
    ensures (a + b % 0x1_0000_0000_0000_0000) % 0x1_0000_0000_0000_0000 == (a + b) % 0x1_0000_0000_0000_0000
  {
    var q := b / 0x1_0000_0000_0000_0000;
    assert a + b == a + b % 0x1_0000_0000_0000_0000 + q * 0x1_0000_0000_0000_0000;
  }

  // ---------- how long the loop waits ----------

  /** A timer of s.rest is still ahead, gone, or was passed with a schedule that inums takes into account. */
  ghost predicate Accounted(s: State, t: State, y: Tally, id: nat) {
    Find(s.rest, id).Some? ==>
      || Find(t.rest, id).Some?
      || (LifeIn(t.log, id).Some? && LifeIn(t.log, id).value.Gone?)
      || (Find(t.front, id).Some? && y.inums <= Find(t.front, id).value.schedule)
  }

  ghost predicate Earliest(s: State, y: Tally, r: State, z: Tally, id: nat) {
    && z.inums <= y.inums
    && (Find(s.rest, id).Some? && Find(r.front, id).Some? ==> z.inums <= Find(r.front, id).value.schedule)
  }

  lemma EarliestStep(s: State, y: Tally, t: State, x: Tally, r: State, z: Tally, id: nat)
    requires Walked(t, r) && Accounted(s, t, x, id) && x.inums <= y.inums && Earliest(t, x, r, z, id)
    ensures Earliest(s, y, r, z, id)
  {
    assert Visited(t, r, id);
    Known(r, 0, id);
  }

  lemma ServeAccounted(s: State, y: Tally, id: nat)
    requires Invariant(s) && s.rest != [] && !s.rest[0].cleared
    ensures var (t, x) := Serve(s, y); Accounted(s, t, x, id) && x.inums <= y.inums
  {
    var head := s.rest[0];
    var u := CallHead(s);
    if !Due(head, s.now) {
      NextLists(s, id);
    } else if RoundOf(head).ret == 0 {
      RunRemoved(s);
      assert RanStep(s, RemoveHead(u), id);
      CallHeadKeeps(s);
      RemoveHeadKeeps(u, head.id);
      RemovedGone(u, head.id);
    } else {
      RunKept(s);
      var w := Sample(Reschedule(u, s.now, Period(head)));
      assert RanStep(s, Next(w), id);
      CallHeadKeeps(s);
      RescheduleKeeps(u, s.now, Period(head));
      SampleKeeps(Reschedule(u, s.now, Period(head)), 0);
      NextLists(w, id);
    }
  }

  lemma RemovedGone(s: State, busy: nat)
    requires InvariantBut(s, busy) && s.rest != [] && Spent(s, s.rest[0].id)
    ensures var id, log := s.rest[0].id, RemoveHead(s).log;
      LifeIn(log, id).Some? && LifeIn(log, id).value.Gone?
  {
    var id := s.rest[0].id;
    Known(s, busy, id);
    LogMore(s.log, Removed(id, false), id);
  }

  /** inums is at most the schedule of every timer that the walk has passed and that is still there. */
  lemma {:induction false} WalkEarliest(s: State, y: Tally, id: nat)
    requires Invariant(s)
    ensures var (r, z) := Walk(s, y); Earliest(s, y, r, z, id)
    decreases |s.rest|
  {
    hide Invariant, InvariantBut, Earliest, Accounted, Walked, Serve;
    var (r, z) := Walk(s, y);
    FromInvariant(s);
    if s.rest == [] {
      EarliestNone(s, y, id);
    } else if s.rest[0].cleared {
      var t := RemoveHead(s);
      ClearedSpent(s);
      RemoveHeadKeeps(s, 0);
      ToInvariant(t);
      WalkEarliest(t, y, id);
      WalkKeeps(t, y);
      StepsAccounted(s, t, y, id);
      EarliestStep(s, y, t, y, r, z, id);
    } else {
      var s1 := Sample(s);
      var (t, x) := Serve(s1, y);
      SampleKeeps(s, 0);
      ToInvariant(s1);
      ServeKeeps(s1, y);
      WalkEarliest(t, x, id);
      WalkKeeps(t, x);
      ServeAccounted(s1, y, id);
      SampledSame(s, t, x, id);
      EarliestStep(s, y, t, x, r, z, id);
    }
  }

  /** A timer that the walk has gone over is gone, or has this schedule. */
  ghost predicate Left(r: State, id: nat, schedule: nat) {
    || (LifeIn(r.log, id).Some? && LifeIn(r.log, id).value.Gone?)
    || (Find(r.front, id).Some? && Find(r.front, id).value.schedule == schedule)
  }

  /** If inums has changed, it is the schedule of such a timer. */
  ghost predicate Attained(s: State, y: Tally, r: State, z: Tally) {
    z.inums == y.inums || exists id: nat :: Find(s.rest, id).Some? && Left(r, id, z.inums)
  }

  lemma AttainedStep(s: State, y: Tally, t: State, x: Tally, r: State, z: Tally)
    requires s.rest != [] && Walked(t, r) && Attained(t, x, r, z)
    requires x.inums == y.inums || Left(t, s.rest[0].id, x.inums)
    requires forall id: nat :: Find(t.rest, id).Some? ==> Find(s.rest, id).Some?
    ensures Attained(s, y, r, z)
  {
    if z.inums == x.inums && x.inums != y.inums {
      var id := s.rest[0].id;
      assert Find(s.rest, id).Some? && Visited(t, r, id);
      assert Left(r, id, z.inums);
    }
  }

  lemma ServeAttained(s: State, y: Tally)
    requires Invariant(s) && s.rest != [] && !s.rest[0].cleared
    ensures var (t, x) := Serve(s, y);
      && (x.inums == y.inums || Left(t, s.rest[0].id, x.inums))
      && forall id: nat :: Find(t.rest, id).Some? ==> Find(s.rest, id).Some?
  {
    var head := s.rest[0];
    var (t, x) := Serve(s, y);
    if !Due(head, s.now) {
      NextLists(s, head.id);
    } else if RoundOf(head).ret == 0 {
      RunRemoved(s);
    } else {
      RunKept(s);
      CallHeadKeeps(s);
      RescheduleKeeps(CallHead(s), s.now, Period(head));
      var w := Sample(Reschedule(CallHead(s), s.now, Period(head)));
      SampleKeeps(Reschedule(CallHead(s), s.now, Period(head)), 0);
      NextLists(w, head.id);
    }
    forall id: nat | Find(t.rest, id).Some?
      ensures Find(s.rest, id).Some?
    {
      if Due(head, s.now) {
        assert RanStep(s, t, id);
      } else {
        NextLists(s, id);
      }
    }
  }

  /** The walk changes inums only to the schedule of a timer that it goes over. */
  lemma {:induction false} WalkAttained(s: State, y: Tally)
    requires Invariant(s)
    ensures var (r, z) := Walk(s, y); Attained(s, y, r, z)
    decreases |s.rest|
  {
    hide Invariant, InvariantBut, Walked, Serve, Left;
    FromInvariant(s);
    if s.rest == [] {
    } else if s.rest[0].cleared {
      var t := RemoveHead(s);
      ClearedSpent(s);
      RemoveHeadKeeps(s, 0);
      ToInvariant(t);
      WalkAttained(t, y);
    } else {
      var s1 := Sample(s);
      var (t, x) := Serve(s1, y);
      SampleKeeps(s, 0);
      ToInvariant(s1);
      ServeKeeps(s1, y);
      WalkAttained(t, x);
      WalkKeeps(t, x);
      ServeAttained(s1, y);
      var (r, z) := Walk(t, x);
      AttainedStep(s1, y, t, x, r, z);
    }
  }

  lemma SampledSame(s: State, t: State, x: Tally, id: nat)
    requires Accounted(Sample(s), t, x, id)
    ensures Accounted(s, t, x, id)
  {
  }

  lemma EarliestNone(s: State, y: Tally, id: nat)
    requires s.rest == []
    ensures Earliest(s, y, s, y, id)
  {
  }

  lemma StepsAccounted(s: State, t: State, y: Tally, id: nat)
    requires Steps(s, 0, t)
    ensures Accounted(s, t, y, id)
  {
    assert Onward(s, t, id);
  }

  /** The rounding of the waiting time. */
  function Rounded(schedule: nat, last: nat): nat
    requires schedule >= last
  {
    (schedule - last + 500000) / 1000000
  }

  function Floor(low: bool): int {
    if low then 100 else 1
  }

  /** The wait for a timer that is still to come never goes beyond it, save for the floor and rounding. */
  lemma WaitAhead(schedule: nat, last: nat, low: bool)
    requires last <= schedule < U64 - 500000
    ensures Wait(schedule, last, low) <=
      if Rounded(schedule, last) > Floor(low) then Rounded(schedule, last) else Floor(low)
    ensures Rounded(schedule, last) < U32 / 2 ==>
      Wait(schedule, last, low) == if Rounded(schedule, last) > Floor(low) then Rounded(schedule, last) else Floor(low)
  {
  }

  /** How late a timer may be for the wrapped and truncated difference to be a negative int. */
  const LATEST: nat := 2007021037 * 1000000 + 551616 + 500000

  /** For a timer that is late, by up to about 23 days, the wait is the floor. */
  lemma WaitLate(schedule: nat, last: nat, low: bool)
    requires schedule < last < U64 && last - schedule <= LATEST
    ensures Wait(schedule, last, low) == Floor(low)
  {
    var d := last - schedule;
    if d > 500000 {
      Wrapped(d - 500000);
    }
  }

  /** The quotient of a small negative number, wrapped to 64 bits, is negative as a 32-bit one. */
  lemma Wrapped(e: nat)
    requires 0 < e <= LATEST - 500000
    ensures Wrap(0 - e) / MILLISECOND % U32 >= U32 / 2
  {
    var q := (U64 - e) / MILLISECOND;
    assert Wrap(0 - e) == U64 - e;
    assert 18446744073709 - 2007021037 <= q <= 18446744073709;
    Truncated(q);
  }

  lemma Truncated(q: nat)
    requires 18446744073709 - 2007021037 <= q <= 18446744073709
    ensures q % U32 >= U32 / 2
  {
    assert q == 4294 * U32 + (q - 4294 * U32);
  }

  /** One nanosecond beyond LATEST the wait is as long as an int can say. */
  lemma WaitTooLate(schedule: nat, last: nat, low: bool)
    requires schedule < last < U64 && last - schedule == LATEST + 1
    ensures Wait(schedule, last, low) == U32 / 2 - 1
  {
  }

  /** The end of the walk of a pass. */
  function Walking(s: State): (State, Tally)
    requires s.rest == []
  {
    Walk(ProcessAsync(Begun(s)), Tally(U64 - 1, 0))
  }

  /** The clock reading that the wait is computed from. */
  function LastSample(s: State): nat
    requires s.rest == []
  {
    var (c, y) := Walking(s);
    if y.last != 0 then y.last else Sample(ProcessAsync(c)).now
  }

  lemma StillThere(s: State, low: bool, id: nat)
    requires Invariant(s) && s.rest == []
    requires Find(s.front, id).Some? && Find(Pass(s, low).0.front, id).Some?
    ensures Walking(s).1.inums <= Find(Pass(s, low).0.front, id).value.schedule
  {
    var a := Begun(s);
    BegunKeeps(s);
    var b := ProcessAsync(a);
    ProcessAsyncKeeps(a, 0);
    var (c, y) := Walking(s);
    WalkKeeps(b, Tally(U64 - 1, 0));
    WalkEarliest(b, Tally(U64 - 1, 0), id);
    ProcessAsyncKeeps(c, 0);
    var d := ProcessAsync(c);
    assert Pass(s, low).0.front == d.front;
    assert Onward(a, b, id) && Visited(b, c, id) && Onward(c, d, id);
    Known(a, 0, id);
    Known(c, 0, id);
    Known(d, 0, id);
  }

  lemma LeftSame(s: State, t: State, id: nat, schedule: nat)
    requires Onward(s, t, id) && Left(s, id, schedule)
    ensures Left(t, id, schedule)
  {
  }

  lemma PollAttained(s: State, low: bool)
    requires Invariant(s) && s.rest == [] && Walking(s).1.inums != U64 - 1
    ensures exists id: nat :: Find(s.front, id).Some? && Left(Pass(s, low).0, id, Walking(s).1.inums)
  {
    var a := Begun(s);
    BegunKeeps(s);
    var b := ProcessAsync(a);
    ProcessAsyncKeeps(a, 0);
    var (c, y) := Walking(s);
    WalkKeeps(b, Tally(U64 - 1, 0));
    WalkAttained(b, Tally(U64 - 1, 0));
    hide Left, LifeIn;
    var id: nat :| Find(b.rest, id).Some? && Left(c, id, y.inums);
    assert Onward(a, b, id);
    ProcessAsyncKeeps(c, 0);
    var d := ProcessAsync(c);
    assert Onward(c, d, id);
    LeftSame(c, d, id, y.inums);
    SampleKeeps(d, 0);
    assert Onward(d, Sample(d), id);
    LeftSame(d, Sample(d), id, y.inums);
    assert Pass(s, low).0 == d || Pass(s, low).0 == Sample(d);
  }

  /** The loop waits for the earliest of the timers that were there when the pass began. If some of them
      still are, the wait is computed from a time that is no later than any of their schedules, and that is
      the schedule of one of them, or of one that has gone since. The wait is what is left until then,
      rounded to milliseconds, and at least the floor; it is the floor if that time is over. Timers created
      meanwhile do not count. */
  lemma PollWait(s: State, low: bool, id: nat)
    requires Invariant(s) && s.rest == [] && LastSample(s) < U64
    requires Find(s.front, id).Some? && Find(Pass(s, low).0.front, id).Some?
    requires Find(Pass(s, low).0.front, id).value.schedule < U64 - 500000
    ensures var inums, last, wait := Walking(s).1.inums, LastSample(s), Pass(s, low).1;
      && inums <= Find(Pass(s, low).0.front, id).value.schedule
      && (exists i: nat :: Find(s.front, i).Some? && Left(Pass(s, low).0, i, inums))
      && (last <= inums ==> wait <= if Rounded(inums, last) > Floor(low) then Rounded(inums, last) else Floor(low))
      && (last <= inums && Rounded(inums, last) < 0x8000_0000 ==>
            wait == if Rounded(inums, last) > Floor(low) then Rounded(inums, last) else Floor(low))
      && (inums < last <= inums + LATEST ==> wait == Floor(low))
  {
    StillThere(s, low, id);
    PollAttained(s, low);
    var inums, last := Walking(s).1.inums, LastSample(s);
    assert Pass(s, low).1 == Wait(inums, last, low);
    if last <= inums {
      WaitAhead(inums, last, low);
    } else if last <= inums + LATEST {
      WaitLate(inums, last, low);
    }
  }

  /** A timer that the pass will not keep: it is cleared, or due and about to return 0. */
  predicate Final(t: Timer, now: nat) {
    t.cleared || (Due(t, now) && RoundOf(t).ret == 0)
  }

  ghost predicate AllFinal(s: State) {
    forall id: nat :: Find(s.rest, id).Some? ==> Final(Find(s.rest, id).value, s.now)
  }

  lemma FinalSteps(s: State, t: State)
    requires AllFinal(s) && s.now <= t.now
    requires forall id: nat :: Find(t.rest, id).Some? ==> Onward(s, t, id)
    ensures AllFinal(t)
  {
    forall id: nat | Find(t.rest, id).Some?
      ensures Final(Find(t.rest, id).value, t.now)
    {
      assert Onward(s, t, id);
    }
  }

  lemma {:induction false} WalkFinal(s: State, y: Tally)
    requires Invariant(s) && AllFinal(s)
    ensures Walk(s, y).1 == y
    decreases |s.rest|
  {
    hide Onward, CallHead, RanStep;
    FromInvariant(s);
    if s.rest == [] {
    } else if s.rest[0].cleared {
      ClearedSpent(s);
      RemoveHeadKeeps(s, 0);
      ToInvariant(RemoveHead(s));
      FinalSteps(s, RemoveHead(s));
      WalkFinal(RemoveHead(s), y);
    } else {
      var s1 := Sample(s);
      SampleKeeps(s, 0);
      ToInvariant(s1);
      FinalSteps(s, s1);
      assert Find(s1.rest, s1.rest[0].id) == Some(s1.rest[0]);
      ServeFinal(s1, y);
      WalkFinal(Serve(s1, y).0, y);
    }
  }

  lemma ServeFinal(s: State, y: Tally)
    requires Invariant(s) && AllFinal(s) && s.rest != [] && !s.rest[0].cleared && Final(s.rest[0], s.now)
    ensures var (t, x) := Serve(s, y); x == y && Invariant(t) && AllFinal(t)
  {
    var t := Serve(s, y).0;
    RunRemoved(s);
    forall id: nat | Find(t.rest, id).Some?
      ensures Onward(s, t, id)
    {
      assert RanStep(s, t, id);
    }
    FinalSteps(s, t);
  }

  /** When the pass keeps no timer that was there when it began, the loop waits for the full resolution,
      whatever timers are created in the pass, however soon they are due. */
  lemma NewTimersNotCounted(s: State, low: bool)
    requires Invariant(s) && s.rest == []
    requires forall id: nat :: Find(s.front, id).Some? ==> Final(Find(s.front, id).value, s.now)
    ensures Pass(s, low).1 == RESOLUTION
  {
    var a := Begun(s);
    BegunKeeps(s);
    ProcessAsyncKeeps(a, 0);
    FinalSteps(a, ProcessAsync(a));
    WalkFinal(ProcessAsync(a), Tally(U64 - 1, 0));
  }

  /** So a timer of 1 ms, created in a pass, is waited for 8 ms. */
  lemma NewTimerWaits(now: nat)
    ensures var s := NewTimers(now, []).(asyncs := [Deferral(1, [Create(1, [])])], lastAsync := 1);
      Pass(s, false).1 == 8 && |Pass(s, false).0.front| == 1
  {
    var s := NewTimers(now, []).(asyncs := [Deferral(1, [Create(1, [])])], lastAsync := 1);
    var a := Begun(s).(asyncs := []);
    var calls := [Create(1, [])];
    assert calls[1..] == [] && s.asyncs[1..] == [];
    var b := a.(fired := [1]);
    assert a.fired + [1] == [1];
    assert ActAll(b, calls) == Act(b, calls[0]);
    assert ProcessAsync(Begun(s)) == Act(b, calls[0]);
  }
}
