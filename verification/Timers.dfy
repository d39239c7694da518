/** The timers of ape_timers_next.c, as transitions on values. */
module Timers {
  import opened Options

  const U64: nat := 0x1_0000_0000_0000_0000
  const U32: nat := 0x1_0000_0000
  /** A timer may run this many nanoseconds early. */
  const EARLY: nat := 150000
  const MILLISECOND: nat := 1000000
  /** APE_TIMER_RESOLUTION */
  const RESOLUTION: nat := 8

  /** uint64_t arithmetic */
  function Wrap(x: int): nat {
    x % U64
  }

  /** What a callback may do: API calls, on timers named by their identifier. */
  datatype Action =
    | Create(ms: int, rounds: seq<Round>)
    | Clear(id: nat, force: bool)
    | Unprotect(id: nat)
    | Destroy(id: nat)
    | Async(actions: seq<Action>)

  /** One call of a timer's callback, and what it returns; once its rounds are used up it returns 0. */
  datatype Round = Round(actions: seq<Action>, ret: int)

  /** struct _ape_timer_t; guarded and cleared are the two flags. */
  datatype Timer = Timer(id: nat, guarded: bool, cleared: bool, ticks: nat, schedule: nat, rounds: seq<Round>)

  /** A deferred callback, struct _ape_timer_async_t: the n-th one. */
  datatype Deferral = Deferral(n: nat, actions: seq<Action>)

  /** What happens to timers. Created records the clock reading and the milliseconds asked for, Ran the
      clock reading at the call of the callback and the milliseconds it returns, Marked that the cleared
      flag is set for the first time, and Removed that clearfunc is called and the timer freed, and whether
      that is because somebody called APE_timer_destroy. */
  datatype Event =
    | Created(id: nat, at: nat, ms: int)
    | Marked(id: nat)
    | Ran(id: nat, at: nat, ms: int)
    | Removed(id: nat, asked: bool)

  /** The list of timers is front + rest. While it is walked, rest starts with the captured timer `cur`;
      at other times rest is empty. drift lists by how much the clock goes on between readings. fired lists
      the deferred callbacks that have been called. */
  datatype State = State(
    front: seq<Timer>, rest: seq<Timer>, asyncs: seq<Deferral>, lastAsync: nat, fired: seq<nat>,
    lastId: nat, now: nat, drift: seq<nat>, log: seq<Event>)
  {
    function All(): seq<Timer> {
      front + rest
    }
  }

  /** mach_absolute_time; the reading is the new `now`. */
  function Sample(s: State): (r: State)
    ensures r.now >= s.now && r == s.(now := r.now, drift := r.drift)
  {
    if s.drift == [] then s else s.(now := s.now + s.drift[0], drift := s.drift[1..])
  }

  /** The timer with this identifier. */
  function Find(ts: seq<Timer>, id: nat): Option<Timer> {
    if ts == [] then None else if ts[0].id == id then Some(ts[0]) else Find(ts[1..], id)
  }

  /** ts with a timer changed. */
  function Update(ts: seq<Timer>, t: Timer): (r: seq<Timer>)
    ensures |r| == |ts| && forall i :: 0 <= i < |r| ==> r[i].id == ts[i].id
  {
    if ts == [] then [] else if ts[0].id == t.id then [t] + ts[1..] else [ts[0]] + Update(ts[1..], t)
  }

  /** ts without a timer. */
  function Drop(ts: seq<Timer>, id: nat): (r: seq<Timer>)
    ensures |r| == if Find(ts, id).Some? then |ts| - 1 else |ts|
  {
    if ts == [] then [] else if ts[0].id == id then ts[1..] else [ts[0]] + Drop(ts[1..], id)
  }

  function Changed(s: State, t: Timer): State {
    s.(front := Update(s.front, t), rest := Update(s.rest, t))
  }

  /** APE_timer_create: the new timer becomes the head of the list. */
  function CreateTimer(s: State, ms: int, rounds: seq<Round>): State {
    var s' := Sample(s);
    var ticks := Wrap(ms * MILLISECOND);
    var t := Timer(s.lastId + 1, true, false, ticks, Wrap(s'.now + ticks), rounds);
    s'.(front := [t] + s.front, lastId := t.id, log := s.log + [Created(t.id, s'.now, ms)])
  }

  /** APE_timer_clearbyid */
  function ClearTimer(s: State, id: nat, force: bool): State {
    match Find(s.All(), id)
    case None => s
    case Some(t) =>
      if t.guarded && !force then s
      else Changed(s, t.(cleared := true)).(log := if t.cleared then s.log else s.log + [Marked(id)])
  }

  /** APE_timer_unprotect */
  function UnprotectTimer(s: State, id: nat): State {
    match Find(s.All(), id)
    case None => s
    case Some(t) => Changed(s, t.(guarded := false))
  }

  /** APE_timer_destroy, for a timer that is on the list and not the captured one; a callback has no
      business destroying any other. */
  function DestroyTimer(s: State, id: nat): State {
    var log := s.log + [Removed(id, true)];
    if Find(s.front, id).Some? then s.(front := Drop(s.front, id), log := log)
    else if s.rest != [] && Find(s.rest[1..], id).Some? then
      s.(rest := [s.rest[0]] + Drop(s.rest[1..], id), log := log)
    else s
  }

  /** APE_async: the new callback becomes the head of the list. */
  function Defer(s: State, actions: seq<Action>): State {
    var n := s.lastAsync + 1;
    s.(asyncs := [Deferral(n, actions)] + s.asyncs, lastAsync := n)
  }

  function Act(s: State, a: Action): State {
    match a
    case Create(ms, rounds) => CreateTimer(s, ms, rounds)
    case Clear(id, force) => ClearTimer(s, id, force)
    case Unprotect(id) => UnprotectTimer(s, id)
    case Destroy(id) => DestroyTimer(s, id)
    case Async(actions) => Defer(s, actions)
  }

  lemma ActRest(s: State, a: Action)
    ensures var r := Act(s, a); |r.rest| <= |s.rest| && (r.rest == [] <==> s.rest == [])
    ensures s.rest != [] ==> Act(s, a).rest[0].id == s.rest[0].id
  {
  }

  /** A callback */
  function ActAll(s: State, actions: seq<Action>): (r: State)
    ensures |r.rest| <= |s.rest| && (r.rest == [] <==> s.rest == [])
    ensures s.rest != [] ==> r.rest[0].id == s.rest[0].id
    decreases |actions|
  {
    if actions == [] then s
    else
      ActRest(s, actions[0]);
      ActAll(Act(s, actions[0]), actions[1..])
  }

  /** One deferred callback is called. */
  function Fire(s: State, d: Deferral): (r: State)
    ensures |r.rest| <= |s.rest| && (r.rest == [] <==> s.rest == [])
  {
    ActAll(s.(fired := s.fired + [d.n]), d.actions)
  }

  function RunAsyncs(s: State, batch: seq<Deferral>): (r: State)
    ensures |r.rest| <= |s.rest| && (r.rest == [] <==> s.rest == [])
    decreases |batch|
  {
    if batch == [] then s else RunAsyncs(Fire(s, batch[0]), batch[1..])
  }

  /** process_async: what the callbacks defer waits for the next time. */
  function ProcessAsync(s: State): (r: State)
    ensures |r.rest| <= |s.rest| && (r.rest == [] <==> s.rest == [])
  {
    RunAsyncs(s.(asyncs := []), s.asyncs)
  }

  /** ape_timer_destroy, for the captured timer */
  function RemoveHead(s: State): State
    requires s.rest != []
  {
    s.(rest := s.rest[1..], log := s.log + [Removed(s.rest[0].id, false)])
  }

  /** The timer may run at this time. The difference is unsigned. */
  predicate Due(t: Timer, now: nat) {
    now >= Wrap(t.schedule - EARLY)
  }

  function RoundOf(t: Timer): Round {
    if t.rounds == [] then Round([], 0) else t.rounds[0]
  }

  /** The period after the callback has returned. */
  function Period(t: Timer): nat {
    if RoundOf(t).ret == -1 then t.ticks else Wrap(RoundOf(t).ret * MILLISECOND)
  }

  /** Up to the return of the callback of the captured timer. */
  function CallHead(s: State): (r: State)
    requires s.rest != []
    ensures 0 < |r.rest| <= |s.rest| && r.rest[0].id == s.rest[0].id
  {
    var t := s.rest[0];
    var rest := [t.(rounds := if t.rounds == [] then [] else t.rounds[1..])] + s.rest[1..];
    ActAll(s.(rest := rest, log := s.log + [Ran(t.id, s.now, RoundOf(t).ret)]), RoundOf(t).actions)
  }

  /** The callback has asked to go on. */
  function Reschedule(s: State, start: nat, period: nat): State
    requires s.rest != []
  {
    s.(rest := [s.rest[0].(ticks := period, schedule := Wrap(start + period))] + s.rest[1..])
  }

  /** Going on to the next timer. */
  function Next(s: State): State
    requires s.rest != []
  {
    s.(front := s.front + [s.rest[0]], rest := s.rest[1..])
  }

  /** inums and lastsample */
  datatype Tally = Tally(inums: nat, last: nat)

  function Earlier(y: Tally, t: Timer): Tally {
    if t.schedule < y.inums then y.(inums := t.schedule) else y
  }

  /** What the loop does with the captured timer after reading the clock, if it has not been cleared. */
  function Serve(s: State, y: Tally): (r: (State, Tally))
    requires s.rest != []
    ensures |r.0.rest| < |s.rest|
  {
    var t := s.rest[0];
    if !Due(t, s.now) then (Next(s), Earlier(y, t))
    else
      var s1 := CallHead(s);
      if RoundOf(t).ret == 0 then (RemoveHead(s1), y)
      else
        var s2 := Sample(Reschedule(s1, s.now, Period(t)));
        (Next(s2), Earlier(y.(last := s2.now), s2.rest[0]))
  }

  /** The loop of ape_timers_process */
  function Walk(s: State, y: Tally): (r: (State, Tally))
    ensures r.0.rest == []
    decreases |s.rest|
  {
    if s.rest == [] then (s, y)
    else if s.rest[0].cleared then Walk(RemoveHead(s), y)
    else
      var (t, x) := Serve(Sample(s), y);
      Walk(t, x)
  }

  /** ape_max(floor, (int)((inums - lastsample + 500000) / 1000000)) */
  function Wait(schedule: nat, last: nat, lowResolution: bool): int {
    var floor := if lowResolution then 100 else 1;
    var ms := Wrap(schedule - last + 500000) / MILLISECOND;
    var cut := ms % U32;
    var signed := if cut < U32 / 2 then cut else cut - U32;
    if signed > floor then signed else floor
  }

  /** ape_timers_process: the captured timer is the head, even while the first asyncs run. */
  function Pass(s: State, lowResolution: bool): (State, int)
    requires s.rest == []
  {
    var (s1, y) := Walk(ProcessAsync(s.(front := [], rest := s.front)), Tally(U64 - 1, 0));
    var s2 := ProcessAsync(s1);
    if y.inums == U64 - 1 then (s2, RESOLUTION)
    else if y.last != 0 then (s2, Wait(y.inums, y.last, lowResolution))
    else (Sample(s2), Wait(y.inums, Sample(s2).now, lowResolution))
  }
}
