/** What APE_loop_run (ape_events_loop.c) does with one client socket, and whole runs of it on the
    socket object. */
module EventLoops {
  import opened Pools
  import S = Stream
  import R = StreamRuns
  import T = StreamTraces
  import opened JobLists
  import opened Sockets

  /** A call from outside or from a callback. */
  method Do(socket: Socket, c: S.Call)
    requires socket.Valid() && S.Sound(socket.Abs()) && c.Valid()
    modifies socket, socket.world, socket.Footprint()
    ensures socket.Valid() && fresh(socket.Footprint() - old(socket.Footprint()))
    ensures socket.Abs() == S.Do(old(socket.Abs()), c)
  {
    hide Socket.Valid, S.Write, S.ShutdownQueued, S.ShutdownNow, S.Sound;
    match c
    case CallWrite(buf, len, life) => var _ := socket.Write(buf, len, life);
    case CallShutdown => socket.ShutdownQueued();
    case CallShutdownNow => socket.ShutdownNow();
  }

  /** A callback: its calls, one after the other. */
  method DoAll(socket: Socket, cs: seq<S.Call>)
    requires socket.Valid() && S.Sound(socket.Abs()) && forall c :: c in cs ==> c.Valid()
    modifies socket, socket.world, socket.Footprint()
    ensures socket.Valid() && fresh(socket.Footprint() - old(socket.Footprint()))
    ensures socket.Abs() == S.DoAll(old(socket.Abs()), cs)
  {
    hide Socket.Valid, Socket.Abs, S.Do, S.Sound;
    ghost var s := socket.Abs();
    var i := 0;
    assert cs[0..] == cs;
    while i < |cs|
      invariant 0 <= i <= |cs|
      invariant socket.Valid() && fresh(socket.Footprint() - old(socket.Footprint()))
      invariant S.Sound(socket.Abs()) && S.DoAll(socket.Abs(), cs[i..]) == S.DoAll(s, cs)
    {
      assert cs[i] in cs && cs[i..][1..] == cs[i + 1..];
      Do(socket, cs[i]);
      i := i + 1;
    }
  }

  /** ape_socket_read; the callback's calls are given, and whether the read hits the end or an error. */
  method Read(socket: Socket, calls: seq<S.Call>, hangup: bool) returns (gone: bool)
    requires socket.Valid() && S.Sound(socket.Abs()) && forall c :: c in calls ==> c.Valid()
    modifies socket, socket.world, socket.Footprint()
    ensures socket.Valid() && fresh(socket.Footprint() - old(socket.Footprint()))
    ensures (socket.Abs(), gone) == S.Read(old(socket.Abs()), calls, hangup)
  {
    hide Socket.Valid, S.DoAll, S.Sound;
    if socket.state != S.Online {
      return false;
    }
    DoAll(socket, calls);
    if hangup && socket.state != S.Shutdown {
      socket.Destroy();
      return true;
    }
    gone := false;
  }

  /** Whatever can be flushed has something to send. */
  ghost predicate Ready(s: S.Sock) {
    S.Sound(s) && S.Sound(s.(state := S.Online)) && (s.state == S.Online ==> Loaded(s.jobs))
  }

  /** Draining an online socket. */
  method Drain(socket: Socket, e: S.Event)
    requires socket.Valid() && Ready(socket.Abs()) && e.Valid()
    requires socket.state == S.Online && !socket.wouldBlock
    modifies socket, socket.world, socket.Footprint()
    ensures socket.Valid() && fresh(socket.Footprint() - old(socket.Footprint()))
    ensures socket.Abs() == S.OnWritable(old(socket.Abs()), e)
  {
    hide Socket.Valid, S.DoAll, S.DoJobs, S.Sound, Loaded;
    var n := socket.DoJobs();
    if n == 1 {
      DoAll(socket, e.onDrain);
    }
  }

  /** A pending connect has come to its end. */
  method Connect(socket: Socket, e: S.Event)
    requires socket.Valid() && Ready(socket.Abs()) && e.Valid() && socket.state == S.Progress
    modifies socket, socket.world, socket.Footprint()
    ensures socket.Valid() && fresh(socket.Footprint() - old(socket.Footprint()))
    ensures socket.Abs() == S.OnWritable(old(socket.Abs()), e)
  {
    hide Socket.Valid, S.DoAll, S.DoJobs, S.Sound, Loaded;
    if e.connects {
      socket.Connected();
      DoAll(socket, e.onConnected);
    } else {
      socket.Destroy();
    }
  }

  /** The rest of the branch, for a writable socket. */
  method OnWritable(socket: Socket, e: S.Event)
    requires socket.Valid() && Ready(socket.Abs()) && e.Valid()
    modifies socket, socket.world, socket.Footprint()
    ensures socket.Valid() && fresh(socket.Footprint() - old(socket.Footprint()))
    ensures socket.Abs() == S.OnWritable(old(socket.Abs()), e)
  {
    hide Socket.Valid, S.DoAll, Socket.Footprint, S.DoJobs, S.Sound, Loaded;
    if socket.state == S.Online && !socket.wouldBlock {
      Drain(socket, e);
    } else if socket.state == S.Progress {
      Connect(socket, e);
    }
  }

  /** The state after the read. */
  function AfterRead(s: S.Sock, e: S.Event): (r: (S.Sock, bool))
    requires S.Sound(s) && e.Valid()
    ensures S.Sound(r.0)
  {
    var s1 := if e.writable then s.(wouldBlock := false) else s;
    if e.readable then S.Read(s1, e.onRead, e.hangup) else (s1, false)
  }

  /** In every reachable state the loop finds the job list as it needs it, also after the read. */
  lemma ReadyAfterRead(s: S.Sock, h: R.Hist, e: S.Event)
    requires R.Invariant(s, h) && e.Valid()
    ensures Ready(AfterRead(s, e).0)
  {
    R.WritableKeeps(s, h);
    if e.readable {
      R.ReadKeeps(if e.writable then s.(wouldBlock := false) else s, h, e.onRead, e.hangup);
    }
  }

  /** The client branch of APE_loop_run. */
  method OnEvent(socket: Socket, e: S.Event)
    requires socket.Valid() && S.Sound(socket.Abs()) && e.Valid() && Ready(AfterRead(socket.Abs(), e).0)
    modifies socket, socket.world, socket.Footprint()
    ensures socket.Valid() && fresh(socket.Footprint() - old(socket.Footprint()))
    ensures socket.Abs() == S.OnEvent(old(socket.Abs()), e)
  {
    assert S.Sound(socket.Abs().(wouldBlock := false));
    hide Socket.Valid, S.Read, S.OnWritable, S.Sound, Ready, Socket.Abs;
    if e.writable {
      socket.Unblock();
    }
    var gone := false;
    if e.readable {
      gone := Read(socket, e.onRead, e.hangup);
    }
    if e.writable && !gone {
      OnWritable(socket, e);
    }
  }

  /** One step of a run. */
  method Perform(socket: Socket, op: R.Op, ghost h: R.Hist)
    requires socket.Valid() && R.Invariant(socket.Abs(), h) && op.Valid()
    modifies socket, socket.world, socket.Footprint()
    ensures socket.Valid() && fresh(socket.Footprint() - old(socket.Footprint()))
    ensures S.Sound(old(socket.Abs())) && socket.Abs() == R.Step(old(socket.Abs()), op)
    ensures R.Invariant(socket.Abs(), R.NoteStep(old(socket.Abs()), h, op))
  {
    StepKeeps(socket.Abs(), h, op);
    hide Socket.Valid, Socket.Abs, R.Invariant, Ready, AfterRead, S.Do, S.OnEvent, S.Sound, R.NoteStep;
    match op
    case Api(c) => Do(socket, c);
    case Loop(e) => OnEvent(socket, e);
  }

  lemma StepKeeps(s: S.Sock, h: R.Hist, op: R.Op)
    requires R.Invariant(s, h) && op.Valid()
    ensures S.Sound(s) && R.Invariant(R.Step(s, op), R.NoteStep(s, h, op))
    ensures op.Loop? ==> Ready(AfterRead(s, op.event).0)
  {
    match op
    case Api(c) => R.DoKeeps(s, h, c);
    case Loop(e) =>
      R.EventKeeps(s, h, e);
      ReadyAfterRead(s, h, e);
  }

  /** Any run on the socket object: whatever is called and happens, the object ends up as the
      transitions of Stream say, and so what is proved of them holds of the object. */
  method PerformAll(socket: Socket, ops: seq<R.Op>, ghost s: S.Sock, ghost h: R.Hist)
    requires socket.Valid() && socket.Abs() == s
    requires S.Sound(s) && R.Invariant(s, h) && forall op :: op in ops ==> op.Valid()
    modifies socket, socket.world, socket.Footprint()
    ensures socket.Valid() && fresh(socket.Footprint() - old(socket.Footprint()))
    ensures socket.Abs() == R.Run(s, ops)
  {
    hide Socket.Valid, Socket.Abs, R.Invariant, R.NoteStep, R.Step, S.Sound;
    ghost var t, past := s, h;
    var i := 0;
    assert ops[0..] == ops;
    while i < |ops|
      invariant 0 <= i <= |ops|
      invariant socket.Valid() && socket.Abs() == t && fresh(socket.Footprint() - old(socket.Footprint()))
      invariant S.Sound(t) && R.Invariant(t, past) && R.Run(t, ops[i..]) == R.Run(s, ops)
    {
      assert ops[i] in ops && ops[i..][1..] == ops[i + 1..];
      InvariantSound(t, past);
      Perform(socket, ops[i], past);
      past := R.NoteStep(t, past, ops[i]);
      t := R.Step(t, ops[i]);
      InvariantSound(t, past);
      i := i + 1;
    }
  }

  lemma InvariantSound(s: S.Sock, h: R.Hist)
    requires R.Invariant(s, h)
    ensures S.Sound(s)
  {
  }

  /** A new socket, as a scenario begins. */
  method Begin(x: T.Scenario) returns (socket: Socket)
    requires x.Valid()
    ensures fresh(socket) && fresh(socket.world) && fresh(socket.Footprint())
    ensures socket.Valid() && socket.Abs() == x.Start()
  {
    var world := new World(x.script, x.others);
    socket := new Socket(world, x.state, x.limitMb);
  }

  /** A new socket, taken through a scenario. */
  method PlayOut(x: T.Scenario) returns (socket: Socket)
    requires x.Valid()
    ensures fresh(socket) && fresh(socket.world) && fresh(socket.Footprint())
    ensures socket.Valid() && socket.Abs() == x.End()
  {
    socket := Begin(x);
    StartKeeps(x);
    hide Socket.Valid, Socket.Abs, Socket.Footprint;
    PerformAll(socket, x.ops, x.Start(), R.NewHist(x.others));
  }

  lemma StartKeeps(x: T.Scenario)
    requires x.Valid()
    ensures R.Invariant(x.Start(), R.NewHist(x.others))
  {
    R.AnyRun(x.state, x.script, x.limitMb, x.others, []);
  }
}
