/** Several sockets that share the count of buffered bytes (total_memory_buffered). */
module Fleets {
  import opened Bytes
  import opened Stream
  import opened StreamRuns
  import opened StreamTheorems

  /** A socket, and whether it has been freed. */
  datatype Ship = Ship(sock: Sock, freed: bool) {
    /** The bytes it holds. */
    function Held(): nat
      requires Sound(sock)
    {
      QueueValid(sock.jobs);
      if freed then 0 else |Payload(Queue(sock.jobs))|
    }
  }

  /** All sockets made so far, and the shared count. */
  datatype Fleet = Fleet(ships: seq<Ship>, total: int)

  predicate AllSound(ships: seq<Ship>) {
    forall p :: p in ships ==> Sound(p.sock)
  }

  /** What happens: a socket is made, called or served by the loop, or freed. */
  datatype Deed =
    | Launch(state: State, script: seq<Answer>, limitMb: nat)
    | Work(i: nat, op: Op)
    | Sink(i: nat)
  {
    predicate Valid() {
      match this
      case Launch(state, _, _) => state != Shutdown && state != Offline
      case Work(_, op) => op.Valid()
      case Sink(_) => true
    }
  }

  /** A socket as it sees the shared count. */
  function View(f: Fleet, i: nat): Sock
    requires i < |f.ships|
  {
    f.ships[i].sock.(total := f.total)
  }

  /** Nothing is done with a socket that does not exist or has been freed. */
  predicate Afloat(f: Fleet, i: nat) {
    i < |f.ships| && !f.ships[i].freed
  }

  function Act(f: Fleet, d: Deed): (r: Fleet)
    requires AllSound(f.ships) && d.Valid()
    ensures AllSound(r.ships)
  {
    match d
    case Launch(state, script, limitMb) =>
      f.(ships := f.ships + [Ship(NewSock(state, script, limitMb, f.total), false)])
    case Work(i, op) =>
      if !Afloat(f, i) then f
      else
        assert f.ships[i] in f.ships;
        var s := Step(View(f, i), op);
        Fleet(f.ships[i := Ship(s, false)], s.total)
    case Sink(i) =>
      if !Afloat(f, i) then f
      else
        assert f.ships[i] in f.ships;
        Fleet(f.ships[i := f.ships[i].(freed := true)], Free(View(f, i)).total)
  }

  function Run(f: Fleet, ds: seq<Deed>): (r: Fleet)
    requires AllSound(f.ships) && forall d :: d in ds ==> d.Valid()
    ensures AllSound(r.ships)
    decreases |ds|
  {
    if ds == [] then f else Run(Act(f, ds[0]), ds[1..])
  }

  /** The bytes held by all sockets that have not been freed. */
  function Sum(ships: seq<Ship>): nat
    requires AllSound(ships)
  {
    if ships == [] then 0
    else
      assert ships[0] in ships && forall p :: p in ships[1..] ==> p in ships;
      ships[0].Held() + Sum(ships[1..])
  }

  lemma {:induction false} SumPut(ships: seq<Ship>, i: nat, p: Ship)
    requires AllSound(ships) && i < |ships| && Sound(p.sock)
    ensures AllSound(ships[i := p])
    ensures ships[i] in ships && Sum(ships[i := p]) == Sum(ships) - ships[i].Held() + p.Held()
  {
    hide Sound;
    var r := ships[i := p];
    assert forall q :: q in r ==> q in ships || q == p;
    if i == 0 {
      assert r[1..] == ships[1..];
    } else {
      assert r[1..] == ships[1..][i - 1 := p];
      assert forall q :: q in ships[1..] ==> q in ships;
      SumPut(ships[1..], i - 1, p);
    }
  }

  lemma {:induction false} SumMore(ships: seq<Ship>, p: Ship)
    requires AllSound(ships) && Sound(p.sock)
    ensures AllSound(ships + [p]) && Sum(ships + [p]) == Sum(ships) + p.Held()
  {
    hide Sound;
    var r := ships + [p];
    if ships == [] {
      assert r == [p] && r[1..] == [];
    } else {
      assert r[1..] == ships[1..] + [p];
      assert forall q :: q in ships[1..] ==> q in ships;
      SumMore(ships[1..], p);
    }
  }

  /** The socket is in a state that its own calls and events can lead to, when the rest of the count is
      put down to others. */
  ghost predicate Sane(s: Sock) {
    exists h: Hist :: Invariant(s, h) && Polling(s)
  }

  ghost predicate Seaworthy(f: Fleet) {
    && AllSound(f.ships)
    && f.total == Sum(f.ships)
    && forall i :: 0 <= i < |f.ships| && !f.ships[i].freed ==> Sane(f.ships[i].sock)
  }

  /** What other sockets do to the count does not matter to this one. */
  lemma Rebased(s: Sock, total: int)
    requires Sane(s)
    ensures Sane(s.(total := total))
  {
    var h: Hist :| Invariant(s, h) && Polling(s);
    assert Invariant(s.(total := total), h.(others := total - s.buffered));
  }

  /** One step of one socket changes the count by what it changes of the bytes held. */
  lemma WorkBalances(s: Sock, op: Op)
    requires Sane(s) && op.Valid()
    ensures Sound(s) && Sane(Step(s, op))
    ensures Step(s, op).total - s.total == Ship(Step(s, op), false).Held() - Ship(s, false).Held()
  {
    var h: Hist :| Invariant(s, h) && Polling(s);
    match op {
      case Api(c) =>
        DoKeeps(s, h, c);
        DoPolling(s, h, c);
      case Loop(e) => EventKeeps(s, h, e);
    }
    StepOthers(s, h, op);
    assert Invariant(Step(s, op), NoteStep(s, h, op));
  }

  lemma StepOthers(s: Sock, h: Hist, op: Op)
    requires Sound(s) && op.Valid()
    ensures NoteStep(s, h, op).others == h.others
  {
    match op
    case Api(c) =>
    case Loop(e) => EventOthers(s, h, e);
  }

  lemma {:induction false} AllOthers(s: Sock, h: Hist, cs: seq<Call>)
    requires Sound(s) && forall c :: c in cs ==> c.Valid()
    ensures NoteAll(s, h, cs).others == h.others
    decreases cs
  {
    if cs != [] {
      AllOthers(Do(s, cs[0]), Note(s, h, cs[0]), cs[1..]);
    }
  }

  lemma WritableOthers(s: Sock, h: Hist, e: Event)
    requires Sound(s) && e.Valid()
    ensures NoteWritable(s, h, e).others == h.others
  {
    hide Do, Flush, Note;
    if s.state == Online && !s.wouldBlock {
      AllOthers(DoJobs(s, 0).0, NoteJobs(s, h), e.onDrain);
    } else if s.state == Progress {
      AllOthers(s.(state := Online), h, e.onConnected);
    }
  }

  lemma EventOthers(s: Sock, h: Hist, e: Event)
    requires Sound(s) && e.Valid()
    ensures NoteEvent(s, h, e).others == h.others
  {
    var s1 := if e.writable then s.(wouldBlock := false) else s;
    var (s2, gone) := if e.readable then Read(s1, e.onRead, e.hangup) else (s1, false);
    var h2 := if e.readable then NoteRead(s1, h, e.onRead, e.hangup) else h;
    hide Do, DoAll, Note, NoteAll, NoteWritable;
    AllOthers(s1, h, e.onRead);
    WritableOthers(s2, h2, e);
  }

  /** Freeing a socket takes away exactly what it held. */
  lemma SinkBalances(s: Sock)
    requires Sane(s)
    ensures Sound(s) && Free(s).total == s.total - Ship(s, false).Held()
  {
    var h: Hist :| Invariant(s, h) && Polling(s);
    CleanAllJobs(s.jobs);
  }

  lemma LaunchSane(state: State, script: seq<Answer>, limitMb: nat, total: int)
    requires state != Shutdown && state != Offline
    ensures var s := NewSock(state, script, limitMb, total);
      Sane(s) && Ship(s, false).Held() == 0
  {
    var s := NewSock(state, script, limitMb, total);
    AnyRun(state, script, limitMb, total, []);
    assert Invariant(s, NewHist(total)) && Polling(s);
    QueueEmpty(s.jobs);
  }

  lemma ActKeeps(f: Fleet, d: Deed)
    requires Seaworthy(f) && d.Valid()
    ensures Seaworthy(Act(f, d))
  {
    hide Sane, Sound, Step, Free;
    match d {
      case Launch(state, script, limitMb) =>
        var s := NewSock(state, script, limitMb, f.total);
        LaunchSane(state, script, limitMb, f.total);
        SumMore(f.ships, Ship(s, false));
      case Work(i, op) =>
        if Afloat(f, i) {
          Rebased(f.ships[i].sock, f.total);
          WorkBalances(View(f, i), op);
          SumPut(f.ships, i, Ship(Step(View(f, i), op), false));
        }
      case Sink(i) =>
        if Afloat(f, i) {
          Rebased(f.ships[i].sock, f.total);
          SinkBalances(View(f, i));
          SumPut(f.ships, i, f.ships[i].(freed := true));
        }
    }
  }

  lemma {:induction false} RunKeeps(f: Fleet, ds: seq<Deed>)
    requires Seaworthy(f) && forall d :: d in ds ==> d.Valid()
    ensures Seaworthy(Run(f, ds))
    decreases |ds|
  {
    hide Act, Seaworthy;
    if ds != [] {
      assert AllSound(f.ships) by { SeaworthySound(f); }
      ActKeeps(f, ds[0]);
      RunKeeps(Act(f, ds[0]), ds[1..]);
    }
  }

  lemma SeaworthySound(f: Fleet)
    requires Seaworthy(f)
    ensures AllSound(f.ships)
  {
  }

  /** total_memory_buffered is the sum of the bytes queued on all sockets that have not been freed,
      however their calls, events and ends are interleaved; and an online socket with a limit never
      holds more than that. */
  lemma TotalExact(ds: seq<Deed>, i: nat)
    requires forall d :: d in ds ==> d.Valid()
    ensures var f := Run(Fleet([], 0), ds);
      && f.total == Sum(f.ships)
      && (Afloat(f, i) ==>
           var s := f.ships[i].sock;
           && f.ships[i] in f.ships && s.buffered == f.ships[i].Held()
           && (s.state == Online && s.limitMb != 0 ==> s.buffered <= s.limitMb * MB))
  {
    RunKeeps(Fleet([], 0), ds);
    var f := Run(Fleet([], 0), ds);
    if Afloat(f, i) {
      var s := f.ships[i].sock;
      assert f.ships[i] in f.ships && Sane(s);
      var h: Hist :| Invariant(s, h) && Polling(s);
    }
  }
}
