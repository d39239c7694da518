/** What the calls of the timer API do, and the deferred callbacks. */
module TimerCalls {
  import opened Options
  import opened Timers
  import opened TimerTheorems

  // ---------- single calls ----------

  /** A new timer has a new identifier, is protected, and is to run once the milliseconds are over. No other
      timer changes. */
  lemma CreateExact(s: State, ms: int, rounds: seq<Round>, id: nat)
    requires Invariant(s)
    ensures var r := CreateTimer(s, ms, rounds);
      && r.lastId == s.lastId + 1 && Find(s.All(), r.lastId) == None
      && (id != r.lastId ==> Find(r.All(), id) == Find(s.All(), id))
      && match Find(r.All(), r.lastId)
         case None => false
         case Some(t) =>
           t.guarded && !t.cleared && t.schedule == (r.now + ms * 1000000) % 0x1_0000_0000_0000_0000
  {
    hide Wrap;
    var r := CreateTimer(s, ms, rounds);
    Known(s, 0, r.lastId);
    assert r.front[1..] == s.front;
    FindAppend(s.front, s.rest, id);
    FindAppend(r.front, r.rest, id);
    FindAppend(r.front, r.rest, r.lastId);
    WrapIs(ms * MILLISECOND);
    WrapIs(r.now + Wrap(ms * MILLISECOND));
    Summed(r.now, ms * MILLISECOND);
  }

  /** Clearing marks the timer if it is not protected or if it is forced, and does nothing else. */
  lemma ClearExact(s: State, id: nat, force: bool, other: nat)
    requires Invariant(s)
    ensures var t, r := Find(s.All(), id), ClearTimer(s, id, force);
      Find(r.All(), other) ==
        if other == id && t.Some? && (!t.value.guarded || force) then Some(t.value.(cleared := true))
        else Find(s.All(), other)
  {
    Known(s, 0, id);
    ChangedOne(s, other, Find(s.All(), id), true);
  }

  /** Unprotecting a timer takes the protection away, and does nothing else. */
  lemma UnprotectExact(s: State, id: nat, other: nat)
    requires Invariant(s)
    ensures var t, r := Find(s.All(), id), UnprotectTimer(s, id);
      Find(r.All(), other) ==
        if other == id && t.Some? then Some(t.value.(guarded := false)) else Find(s.All(), other)
  {
    Known(s, 0, id);
    ChangedOne(s, other, Find(s.All(), id), false);
  }

  lemma ChangedOne(s: State, other: nat, t: Option<Timer>, clear: bool)
    requires Invariant(s) && (t.Some? ==> Find(s.All(), t.value.id) == t)
    ensures t.Some? ==>
      var u := if clear then t.value.(cleared := true) else t.value.(guarded := false);
      Find(Changed(s, u).All(), other) == if other == t.value.id then Some(u) else Find(s.All(), other)
  {
    if t.Some? {
      var u := if clear then t.value.(cleared := true) else t.value.(guarded := false);
      Known(s, 0, u.id);
      Known(s, 0, other);
      FindUpdate(s.front, u, other);
      FindUpdate(s.rest, u, other);
      FindAppend(Changed(s, u).front, Changed(s, u).rest, other);
    }
  }

  /** Destroying a timer takes it off the list, and no other one. */
  lemma DestroyExact(s: State, id: nat, other: nat)
    requires Invariant(s) && (s.rest == [] || s.rest[0].id != id)
    ensures Find(DestroyTimer(s, id).All(), other) == if other == id then None else Find(s.All(), other)
  {
    var r := DestroyTimer(s, id);
    Known(s, 0, id);
    Known(s, 0, other);
    if Find(s.front, id).Some? {
      FindDrop(s.front, id, other);
      FindAppend(r.front, r.rest, other);
    } else if s.rest != [] && Find(s.rest[1..], id).Some? {
      FindDrop(s.rest[1..], id, other);
      assert r.rest[1..] == Drop(s.rest[1..], id);
      FindAppend(r.front, r.rest, other);
    }
  }

  // ---------- deferred callbacks ----------

  function Numbers(ds: seq<Deferral>): (r: seq<nat>)
    ensures |r| == |ds| && forall i :: 0 <= i < |r| ==> r[i] == ds[i].n
  {
    seq(|ds|, i requires 0 <= i < |ds| => ds[i].n)
  }

  /** Every deferred callback so far has been called once or is waiting, be it on the list or in the batch
      that is being worked off; and no other one. */
  ghost predicate Counted(s: State, batch: seq<Deferral>) {
    forall n: nat ::
      multiset(s.fired)[n] + multiset(Numbers(s.asyncs))[n] + multiset(Numbers(batch))[n]
      == if 0 < n <= s.lastAsync then 1 else 0
  }

  lemma NumbersMore(d: Deferral, ds: seq<Deferral>, n: nat)
    ensures Numbers([d] + ds) == [d.n] + Numbers(ds)
    ensures multiset(Numbers([d] + ds))[n] == multiset(Numbers(ds))[n] + if n == d.n then 1 else 0
  {
    assert Numbers([d] + ds) == [d.n] + Numbers(ds);
  }

  lemma NumbersAfter(fired: seq<nat>, d: Deferral, ds: seq<Deferral>)
    ensures fired + [d.n] + Numbers(ds) == fired + Numbers([d] + ds)
  {
  }

  lemma CountedSame(s: State, t: State, batch: seq<Deferral>)
    requires Counted(s, batch) && t.fired == s.fired && t.asyncs == s.asyncs && t.lastAsync == s.lastAsync
    ensures Counted(t, batch)
  {
  }

  lemma ActCounted(s: State, batch: seq<Deferral>, a: Action)
    requires Counted(s, batch)
    ensures Counted(Act(s, a), batch) && Act(s, a).fired == s.fired
  {
    if a.Async? {
      var r := Act(s, a);
      forall n: nat
        ensures multiset(r.fired)[n] + multiset(Numbers(r.asyncs))[n] + multiset(Numbers(batch))[n]
          == if 0 < n <= r.lastAsync then 1 else 0
      {
        NumbersMore(r.asyncs[0], s.asyncs, n);
      }
    } else {
      CountedSame(s, Act(s, a), batch);
    }
  }

  lemma {:induction false} ActAllCounted(s: State, batch: seq<Deferral>, actions: seq<Action>)
    requires Counted(s, batch)
    ensures Counted(ActAll(s, actions), batch) && ActAll(s, actions).fired == s.fired
    decreases |actions|
  {
    hide Act, Counted;
    if actions != [] {
      ActCounted(s, batch, actions[0]);
      ActAllCounted(Act(s, actions[0]), batch, actions[1..]);
    }
  }

  lemma FireCounted(s: State, d: Deferral, batch: seq<Deferral>)
    requires Counted(s, [d] + batch)
    ensures Counted(Fire(s, d), batch) && Fire(s, d).fired == s.fired + [d.n]
  {
    var t := s.(fired := s.fired + [d.n]);
    forall n: nat
      ensures multiset(t.fired)[n] + multiset(Numbers(t.asyncs))[n] + multiset(Numbers(batch))[n]
        == if 0 < n <= t.lastAsync then 1 else 0
    {
      NumbersMore(d, batch, n);
    }
    ActAllCounted(t, batch, d.actions);
  }

  lemma {:induction false} RunAsyncsCounted(s: State, batch: seq<Deferral>)
    requires Counted(s, batch)
    ensures var r := RunAsyncs(s, batch);
      Counted(r, []) && r.fired == s.fired + Numbers(batch)
    decreases |batch|
  {
    hide Fire, Counted;
    if batch == [] {
      assert s.fired + Numbers([]) == s.fired;
    } else {
      var d, rest := batch[0], batch[1..];
      assert batch == [d] + rest;
      FireCounted(s, d, rest);
      RunAsyncsCounted(Fire(s, d), rest);
      NumbersAfter(s.fired, d, rest);
    }
  }

  lemma ProcessAsyncCounted(s: State)
    requires Counted(s, [])
    ensures var r := ProcessAsync(s);
      Counted(r, []) && r.fired == s.fired + Numbers(s.asyncs)
  {
    RunAsyncsCounted(s.(asyncs := []), s.asyncs);
  }

  lemma ServeCounted(s: State, y: Tally)
    requires s.rest != [] && Counted(s, [])
    ensures var t := Serve(s, y).0; Counted(t, []) && t.fired == s.fired
  {
    var c := Called(s);
    CountedSame(s, c, []);
    ActAllCounted(c, [], RoundOf(s.rest[0]).actions);
    hide Counted;
    var t := Serve(s, y).0;
    var u := if Due(s.rest[0], s.now) then CallHead(s) else s;
    CountedSame(u, t, []);
  }

  lemma {:induction false} WalkCounted(s: State, y: Tally)
    requires Counted(s, [])
    ensures var t := Walk(s, y).0; Counted(t, []) && t.fired == s.fired
    decreases |s.rest|
  {
    hide Serve;
    if s.rest == [] {
    } else if s.rest[0].cleared {
      WalkCounted(RemoveHead(s), y);
    } else {
      var (t, x) := Serve(Sample(s), y);
      ServeCounted(Sample(s), y);
      WalkCounted(t, x);
    }
  }

  /** The callbacks waiting when a pass begins are called in it, before any others, in the order of the
      list; and each one is still called just once. */
  lemma PassCounted(s: State, low: bool)
    requires s.rest == [] && Counted(s, [])
    ensures var r := Pass(s, low).0;
      Counted(r, []) && s.fired + Numbers(s.asyncs) <= r.fired
  {
    var a := ProcessAsync(Begun(s));
    ProcessAsyncCounted(Begun(s));
    WalkCounted(a, Tally(U64 - 1, 0));
    var b := Walk(a, Tally(U64 - 1, 0)).0;
    ProcessAsyncCounted(b);
    hide ProcessAsync, Walk;
    var r := Pass(s, low).0;
    assert r == ProcessAsync(b) || r == Sample(ProcessAsync(b));
  }

  /** Over every run each deferred callback is called once, or it is still waiting and has not been called. */
  lemma {:induction false} RunCounted(s: State, ops: seq<Op>)
    requires s.rest == [] && Counted(s, [])
    ensures Counted(Run(s, ops), [])
    decreases |ops|
  {
    hide Counted, Pass, Act;
    if ops != [] {
      StepRest(s, ops[0]);
      match ops[0] {
        case Call(a) => ActCounted(s, [], a);
        case Process(low) => PassCounted(s, low);
      }
      RunCounted(Step(s, ops[0]), ops[1..]);
    }
  }

  lemma EveryAsync(now: nat, drift: seq<nat>, ops: seq<Op>, n: nat)
    ensures var r := Run(NewTimers(now, drift), ops);
      multiset(r.fired)[n] + multiset(Numbers(r.asyncs))[n] == if 0 < n <= r.lastAsync then 1 else 0
  {
    var s := NewTimers(now, drift);
    assert Counted(s, []);
    RunCounted(s, ops);
  }

  // ---------- the clock reading that the wait is computed from ----------

  /** After a callback that asks to be called again the clock is read, and the wait is counted from there;
      no other timer that the loop comes to has an influence on that, not even one that is run and removed. */
  lemma CountedFrom(s: State, y: Tally)
    requires s.rest != []
    ensures var t, (r, z), runs := s.rest[0], Serve(s, y), Due(s.rest[0], s.now);
      && (runs && RoundOf(t).ret != 0 ==> CallHead(s).now <= z.last == r.now)
      && (!runs || RoundOf(t).ret == 0 ==> z.last == y.last)
  {
  }

  /** So the wait does not allow for the time that such callbacks take. A timer runs and is to run again after
      10 ms; then another one runs, which takes 5 ms and is removed. The loop waits for 10 ms, although the
      first timer is to run in 5. */
  lemma StaleWait()
    ensures var (r, wait) := Pass(TwoTimers(), false);
      wait == 10 && r.now == 6000000 && |r.front| == 2 && r.front[1].schedule == 11000000
  {
    hide Pass, Walk, ProcessAsync, Wait;
    StaleWalk(Begun(TwoTimers()), Tally(U64 - 1, 0));
    PassIs(TwoTimers());
    TenMilliseconds();
  }

  lemma PassIs(s: State)
    requires s.rest == [] && s.asyncs == []
    ensures var (r, y) := Walk(Begun(s), Tally(U64 - 1, 0));
      ProcessAsync(r) == r && y.last != 0 && y.inums != U64 - 1 ==> Pass(s, false) == (r, Wait(y.inums, y.last, false))
  {
    assert ProcessAsync(Begun(s)) == Begun(s);
    hide ProcessAsync, Walk, Wait;
  }

  lemma TenMilliseconds()
    ensures Wait(11000000, 1000000, false) == 10
  {
  }

  function TwoTimers(): State {
    var a := Timer(2, true, false, 0, 500000, [Round([], 10)]);
    var b := Timer(1, true, false, 0, 500000, [Round([Create(1000, [])], 0)]);
    NewTimers(1000000, [0, 0, 0, 5000000]).(front := [a, b], lastId := 2)
  }

  lemma StaleWalk(s: State, y: Tally)
    requires s == Begun(TwoTimers()) && y == Tally(U64 - 1, 0)
    ensures var (r, z) := Walk(s, y);
      && ProcessAsync(r) == r && z == Tally(11000000, 1000000) && r.now == 6000000
      && |r.front| == 2 && r.front[1].schedule == 11000000
  {
    var s1 := Sample(s);
    assert s1.now == 1000000 && s1.drift == [0, 0, 5000000];
    FirstServed(s1, y);
    var (t, x) := Serve(s1, y);
    hide Serve, ProcessAsync;
    assert Walk(s, y) == Walk(t, x);
    StaleEnd(t, x);
  }

  lemma StaleEnd(s: State, y: Tally)
    requires s.rest == [Timer(1, true, false, 0, 500000, [Round([Create(1000, [])], 0)])]
    requires s.now == 1000000 && s.drift == [0, 5000000] && |s.front| == 1 && s.front[0].schedule == 11000000
    requires s.asyncs == []
    ensures var (r, z) := Walk(s, y);
      && ProcessAsync(r) == r && z == y && r.now == 6000000 && r.rest == []
      && |r.front| == 2 && r.front[1].schedule == 11000000
  {
    var s1 := Sample(s);
    assert s1.drift == [5000000];
    SecondServed(s1, y);
    var (r, z) := Serve(s1, y);
    hide Serve;
    assert Walk(r, z) == (r, z);
    assert r.(asyncs := []) == r;
  }

  lemma FirstServed(s: State, y: Tally)
    requires s.rest != [] && s.rest[0] == Timer(2, true, false, 0, 500000, [Round([], 10)])
    requires s.now == 1000000 && s.drift == [0, 0, 5000000] && y == Tally(U64 - 1, 0)
    ensures var (r, z) := Serve(s, y);
      && z == Tally(11000000, 1000000) && r.now == 1000000 && r.drift == [0, 5000000]
      && |r.front| == |s.front| + 1 && r.front[..|s.front|] == s.front && r.front[|s.front|].schedule == 11000000
      && r == s.(front := r.front, rest := s.rest[1..], drift := r.drift, log := r.log)
  {
  }

  lemma SecondServed(s: State, y: Tally)
    requires s.rest == [Timer(1, true, false, 0, 500000, [Round([Create(1000, [])], 0)])]
    requires s.now == 1000000 && s.drift == [5000000] && |s.front| == 1 && s.front[0].schedule == 11000000
    ensures var (r, z) := Serve(s, y);
      && z == y && r.now == 6000000 && r.rest == []
      && |r.front| == 2 && r.front[1] == s.front[0] && r.asyncs == s.asyncs && r.fired == s.fired
  {
    var c := Called(s);
    var calls := [Create(1000, [])];
    assert calls[1..] == [];
    assert CallHead(s) == ActAll(c, calls) == Act(c, calls[0]);
  }
}
