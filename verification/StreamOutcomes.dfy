/** What single operations on a socket come to, in terms of the kernel's answers, the state before and
    after, the wire and the queue. */
module StreamOutcomes {
  import opened Bytes
  import opened Pools
  import opened Stream
  import opened StreamRuns
  import opened StreamTraces
  import opened StreamInputs

  // ---------- APE_socket_write ----------

  /** The bytes taken by the first i answers to a write loop, when they all accept. */
  function TakenBy(script: seq<Answer>, i: nat, size: nat, len: nat): (t: nat)
    requires i <= |script| && forall j :: 0 <= j < i ==> script[j].Accept?
    ensures t <= size
  {
    if i == 0 then 0
    else
      var t := TakenBy(script, i - 1, size, len);
      t + Min(script[i - 1].n, Min(len, size - t))
  }

  /** The write loop gets as far as the answer at position i: all before it accept, but not enough. */
  predicate Reaches(script: seq<Answer>, i: nat, size: nat, len: nat) {
    && i <= |script|
    && (forall j :: 0 <= j < i ==> script[j].Accept?)
    && (forall j :: 0 <= j < i ==> TakenBy(script, j, size, len) < len)
  }

  /** The write loop after the first i answers. */
  lemma {:induction false} LoopAt(k: Kernel, mem: seq<byte>, len: nat, i: nat)
    requires len <= |mem| && Reaches(k.script, i, |mem|, len)
    ensures var t := TakenBy(k.script, i, |mem|, len);
      WriteLoop(k, mem, len, 0) == WriteLoop(Kernel(k.script[i..], k.wire + mem[..t], k.shut), mem, len, t)
    decreases i
  {
    if i == 0 {
      assert k.script[0..] == k.script && k.wire + mem[..0] == k.wire;
    } else {
      ReachedBefore(k.script, i, |mem|, len);
      hide *;
      LoopAt(k, mem, len, i - 1);
      LoopStep(k, mem, len, i - 1, TakenBy(k.script, i - 1, |mem|, len));
    }
  }

  lemma ReachedBefore(script: seq<Answer>, i: nat, size: nat, len: nat)
    requires i > 0 && len <= size && Reaches(script, i, size, len)
    ensures Reaches(script, i - 1, size, len)
    ensures var t := TakenBy(script, i - 1, size, len);
      t < len && TakenBy(script, i, size, len) == t + Min(script[i - 1].n, Min(len, size - t))
  {
  }

  lemma LoopStep(k: Kernel, mem: seq<byte>, len: nat, j: nat, t: nat)
    requires t < len <= |mem| && j < |k.script| && k.script[j].Accept?
    ensures var t' := t + Min(k.script[j].n, Min(len, |mem| - t));
      WriteLoop(Kernel(k.script[j..], k.wire + mem[..t], k.shut), mem, len, t)
      == WriteLoop(Kernel(k.script[j + 1..], k.wire + mem[..t'], k.shut), mem, len, t')
  {
    assert k.script[j..][0] == k.script[j] && k.script[j..][1..] == k.script[j + 1..];
    WireGrows(k.wire, mem, t, Min(k.script[j].n, Min(len, |mem| - t)));
  }

  lemma WireGrows(wire: seq<byte>, mem: seq<byte>, t: nat, m: nat)
    requires t + m <= |mem|
    ensures (wire + mem[..t]) + mem[t..t + m] == wire + mem[..t + m]
  {
  }

  /** The bytes queued. */
  function QueueAfter(s: Sock): seq<byte>
    requires Sound(s)
  {
    QueueValid(s.jobs);
    Payload(Queue(s.jobs))
  }

  /** The bytes a limit allows: ULL arithmetic wraps. */
  predicate Exceeds(limitMb: nat, buffered: int) {
    limitMb != 0 && buffered > limitMb * 1048576 % 0x1_0000_0000_0000_0000
  }

  /** What queueing n bytes of a buffer, from offset on, leaves behind: they are at the end of the queue and
      counted, nothing is released, and the connection is shut down if they are too many. */
  ghost predicate QueuedBytes(s: Sock, r: Sock, data: seq<byte>)
    requires Sound(s) && Sound(r)
  {
    && QueueAfter(r) == QueueAfter(s) + data
    && r.buffered == s.buffered + |data| && r.total == s.total + |data|
    && r.released == s.released
    && r.kernel.wire == s.kernel.wire && r.kernel.script == s.kernel.script
    && r.wouldBlock == s.wouldBlock && r.limitMb == s.limitMb
    && r.state == (if Exceeds(s.limitMb, r.buffered) then Shutdown else Online)
    && r.kernel.shut == (s.kernel.shut || r.state == Shutdown)
    && r.reclaims == s.reclaims + if r.state == Shutdown then 1 else 0
  }

  lemma EnqueueOutcome(s: Sock, p: Packet)
    requires Sound(s) && Shape(s.jobs, s.cur) && p.Valid()
    ensures QueueAfter(Enqueue(s, p)) == QueueAfter(s) + p.Rest()
    ensures var e := Enqueue(s, p); e == s.(jobs := e.jobs, cur := e.cur)
  {
    EnqueueKeeps(s, p);
    QueueValid(s.jobs);
    PayloadAppend(Queue(s.jobs), [p]);
    PayloadOne([], p);
    assert [] + [p] == [p] && Payload([]) + p.Rest() == p.Rest();
  }

  lemma QueueDataOutcome(s: Sock, buf: Buf, len: nat, offset: nat, life: Lifetime)
    requires Sound(s) && Shape(s.jobs, s.cur) && s.state == Online && offset < len <= |buf.mem|
    ensures QueuedBytes(s, QueueData(s, buf, len, offset, life), buf.mem[offset..len])
  {
    var p := NewPacket(buf, len, offset, life, s.copies);
    EnqueueOutcome(s, p);
    hide Enqueue, NewPacket, Shape, Sound;
    var q := Queued(s, buf, len, offset, life);
    SameQueue(Enqueue(s, p), q);
    SameQueue(q, QueueData(s, buf, len, offset, life));
  }

  lemma SameQueue(s: Sock, r: Sock)
    requires Sound(s) && Sound(r) && s.jobs == r.jobs
    ensures QueueAfter(s) == QueueAfter(r)
  {
  }

  /** Rejected: nothing happens but that an AUTORELEASE buffer is freed. */
  lemma WriteRejected(s: Sock, buf: Buf, len: nat, life: Lifetime)
    requires Sound(s) && len <= |buf.mem| && (s.state != Online || len == 0)
    ensures Write(s, buf, len, life)
      == (s.(released := s.released + if life == Autorelease then [buf.id] else []), -1)
  {
  }

  /** Busy: all bytes are queued, and their number is returned. */
  lemma WriteBusy(s: Sock, buf: Buf, len: nat, life: Lifetime)
    requires WellFormed(s) && s.state == Online && 0 < len <= |buf.mem|
    requires s.wouldBlock || s.jobs[0].active
    ensures var (r, ret) := Write(s, buf, len, life);
      ret == len && QueuedBytes(s, r, buf.mem[..len])
  {
    QueueDataOutcome(s, buf, len, 0, life);
    assert buf.mem[0..len] == buf.mem[..len];
    hide QueueData, QueuedBytes;
  }

  /** An idle connection: the first answer that decides the loop fixes the result. */
  lemma WriteLoopDecided(k: Kernel, mem: seq<byte>, len: nat, i: nat)
    requires 0 < len <= |mem| && Reaches(k.script, i, |mem|, len)
    ensures var t := TakenBy(k.script, i, |mem|, len);
      var (r, taken, out) := WriteLoop(k, mem, len, 0);
      var stop := i < |k.script| && (k.script[i] == Intr || k.script[i] == Fail);
      var wait := i == |k.script| || k.script[i] == Again;
      && (t >= len || stop || wait ==> taken == t && r.wire == k.wire + mem[..t] && r.shut == k.shut)
      && (t >= len ==> out == Done && r.script == k.script[i..])
      && (t < len && wait ==> out == WouldBlock)
      && (t < len && stop ==> out == IoError && r.script == k.script[i + 1..])
  {
    LoopAt(k, mem, len, i);
    assert i < |k.script| ==> k.script[i..][0] == k.script[i] && k.script[i..][1..] == k.script[i + 1..];
  }

  /** The answers accept all of it: 0 is returned, and the bytes taken are on the wire. */
  lemma WriteDone(s: Sock, buf: Buf, len: nat, life: Lifetime, i: nat)
    requires WellFormed(s) && s.state == Online && !s.Busy() && 0 < len <= |buf.mem|
    requires Reaches(s.kernel.script, i, |buf.mem|, len) && TakenBy(s.kernel.script, i, |buf.mem|, len) >= len
    ensures var t, k := TakenBy(s.kernel.script, i, |buf.mem|, len), s.kernel;
      Write(s, buf, len, life)
      == (s.(kernel := Kernel(k.script[i..], k.wire + buf.mem[..t], k.shut),
             released := s.released + if life == Autorelease then [buf.id] else []), 0)
  {
    WriteLoopDecided(s.kernel, buf.mem, len, i);
    hide WriteLoop, TakenBy;
  }

  /** They accept less, and then the kernel says EAGAIN: len is returned, and exactly what is left is queued. */
  lemma WriteBlocked(s: Sock, buf: Buf, len: nat, life: Lifetime, i: nat)
    requires WellFormed(s) && s.state == Online && !s.Busy() && 0 < len <= |buf.mem|
    requires Reaches(s.kernel.script, i, |buf.mem|, len) && TakenBy(s.kernel.script, i, |buf.mem|, len) < len
    requires i == |s.kernel.script| || s.kernel.script[i] == Again
    ensures var t := TakenBy(s.kernel.script, i, |buf.mem|, len);
      var (r, ret) := Write(s, buf, len, life);
      && ret == len && r.wouldBlock
      && r.kernel.wire == s.kernel.wire + buf.mem[..t]
      && QueueAfter(r) == buf.mem[t..len]
      && r.released == s.released && r.buffered == s.buffered + (len - t)
      && r.state == (if Exceeds(s.limitMb, r.buffered) then Shutdown else Online)
  {
    var t := TakenBy(s.kernel.script, i, |buf.mem|, len);
    var k := WriteLoop(s.kernel, buf.mem, len, 0).0;
    WriteLoopDecided(s.kernel, buf.mem, len, i);
    IdleQueueEmpty(s);
    var s' := s.(kernel := k, wouldBlock := true);
    QueueDataOutcome(s', buf, len, t, life);
    assert [] + buf.mem[t..len] == buf.mem[t..len];
    hide WriteLoop, TakenBy, QueueData, Queue, Shape;
  }

  /** They accept less, and then there is an error, EINTR included: -1 is returned, nothing is queued, the
      buffer is released and the connection shut down. */
  lemma WriteFailed(s: Sock, buf: Buf, len: nat, life: Lifetime, i: nat)
    requires WellFormed(s) && s.state == Online && !s.Busy() && 0 < len <= |buf.mem|
    requires Reaches(s.kernel.script, i, |buf.mem|, len) && TakenBy(s.kernel.script, i, |buf.mem|, len) < len
    requires i < |s.kernel.script| && (s.kernel.script[i] == Intr || s.kernel.script[i] == Fail)
    ensures var t, k := TakenBy(s.kernel.script, i, |buf.mem|, len), s.kernel;
      Write(s, buf, len, life)
      == (s.(kernel := Kernel(k.script[i + 1..], k.wire + buf.mem[..t], true),
             released := s.released + (if life == Autorelease then [buf.id] else []),
             state := Shutdown, reclaims := s.reclaims + 1), -1)
  {
    WriteLoopDecided(s.kernel, buf.mem, len, i);
    hide WriteLoop, TakenBy;
  }

  // ---------- shutting down ----------

  /** The connection is over: the fd is shut down and the socket is to be destroyed later. */
  function ShutOff(s: Sock): Sock {
    s.(kernel := s.kernel.(shut := true), state := Shutdown, reclaims := s.reclaims + 1)
  }

  /** The socket is closed without having been connected. */
  function GivenUp(s: Sock): Sock {
    s.(state := Offline, reclaims := s.reclaims + 1)
  }

  /** APE_socket_shutdown_now ends a socket in every state in which it has not ended, and gives it the one
      timer that disposes of it. */
  lemma ShutdownNowEnds(s: Sock)
    requires WellFormed(s)
    ensures var r := ShutdownNow(s);
      && !Open(r) && r.reclaims == 1
      && r == match s.state
              case Online => ShutOff(s)
              case Progress => GivenUp(s)
              case Pending => GivenUp(s)
              case Shutdown => s
              case Offline => s
  {
  }

  /** APE_socket_shutdown does the same, unless something is still to be sent: then the bytes stay queued,
      behind them there is a SHUTDOWN job, and nothing else changes. */
  lemma ShutdownQueuedEnds(s: Sock)
    requires WellFormed(s)
    ensures var r := ShutdownQueued(s);
      if s.state == Online && (s.wouldBlock || s.jobs[0].active) then
        && r == s.(jobs := r.jobs, cur := r.cur)
        && QueueAfter(r) == QueueAfter(s) && r.jobs[0] == s.jobs[0]
        && |r.jobs| > 1 && r.jobs[1].active && r.jobs[1].shutdown && !r.jobs[1].writev
      else r == ShutdownNow(s)
  {
    if s.state == Online && s.Busy() {
      ShutdownSlot(s);
      ShutdownSlotQueue(s);
    }
  }

  /** A read that hits the end or an error leaves no socket up. */
  lemma HangupEnds(s: Sock, calls: seq<Call>)
    requires WellFormed(s) && s.state == Online && forall c :: c in calls ==> c.Valid()
    ensures var t, (r, gone) := DoAll(s, calls), Read(s, calls, true);
      && !Open(r)
      && (gone <==> t.state != Shutdown)
      && r == if t.state == Shutdown then t else GivenUp(t)
  {
    DoAllOpen(s, calls);
  }

  /** A pending connect that fails closes the socket; one that succeeds brings it up before on_connected. */
  lemma ConnectOutcome(s: Sock, e: Event)
    requires WellFormed(s) && s.state == Progress && e.Valid()
    ensures OnWritable(s, e) == if e.connects then DoAll(s.(state := Online), e.onConnected) else GivenUp(s)
  {
  }

  // ---------- draining ----------

  /** The answers that have been used up from s to r. */
  function Used(s: Sock, r: Sock): seq<Answer>
    requires |r.kernel.script| <= |s.kernel.script|
  {
    s.kernel.script[..|s.kernel.script| - |r.kernel.script|]
  }

  /** Bytes taken and EINTR only. */
  predicate GoesOn(used: seq<Answer>) {
    forall a :: a in used ==> a.Accept? || a.Intr?
  }

  predicate EndsWith(used: seq<Answer>, a: Answer) {
    used != [] && used[|used| - 1] == a && GoesOn(used[..|used| - 1])
  }

  /** How the answers used up go with how flushing ends. */
  predicate Explains(used: seq<Answer>, left: seq<Answer>, how: Flushed) {
    match how
    case Finished => GoesOn(used)
    case Blocked => EndsWith(used, Again) || (GoesOn(used) && left == [])
    case Failed => EndsWith(used, Fail)
  }

  lemma OneMore(a: Answer, used: seq<Answer>, left: seq<Answer>, how: Flushed)
    requires (a.Accept? || a.Intr?) && Explains(used, left, how)
    ensures Explains([a] + used, left, how)
  {
    if used != [] {
      assert ([a] + used)[..|used|] == [a] + used[..|used| - 1];
    }
  }

  lemma {:induction false} FlushExplained(s: Sock)
    requires Sound(s)
    ensures |Flush(s).0.kernel.script| <= |s.kernel.script|
    ensures Explains(Used(s, Flush(s).0), Flush(s).0.kernel.script, Flush(s).1)
    decreases |s.kernel.script|
  {
    hide Payload, Advance, Explains;
    var script := s.kernel.script;
    if s.jobs[0].packets == [] || script == [] {
      NoneUsed(s);
    } else {
      var t := s.(kernel := s.kernel.(script := script[1..]));
      match script[0]
      case Again => OneUsed(s);
      case Fail => OneUsed(s);
      case Intr =>
        FlushExplained(t);
        OneMore(script[0], Used(t, Flush(t).0), Flush(t).0.kernel.script, Flush(t).1);
        assert Used(s, Flush(s).0) == [script[0]] + Used(t, Flush(t).0);
      case Accept(n) =>
        AdvanceValid(s.jobs[0].packets, Min(n, |Payload(Chunk(s.jobs[0].packets))|));
        var u := Took(s, n);
        FlushExplained(u);
        OneMore(script[0], Used(u, Flush(u).0), Flush(u).0.kernel.script, Flush(u).1);
        assert Used(s, Flush(s).0) == [script[0]] + Used(u, Flush(u).0);
    }
  }

  lemma NoneUsed(s: Sock)
    requires Sound(s) && (s.jobs[0].packets == [] || s.kernel.script == [])
    ensures Explains(Used(s, Flush(s).0), Flush(s).0.kernel.script, Flush(s).1)
  {
    assert Used(s, Flush(s).0) == [];
  }

  lemma OneUsed(s: Sock)
    requires Sound(s) && s.jobs[0].packets != [] && s.kernel.script != []
    requires s.kernel.script[0] == Again || s.kernel.script[0] == Fail
    ensures |Flush(s).0.kernel.script| <= |s.kernel.script|
    ensures Explains(Used(s, Flush(s).0), Flush(s).0.kernel.script, Flush(s).1)
  {
    assert Used(s, Flush(s).0) == [s.kernel.script[0]];
  }

  lemma SomeLeft(ps: seq<Packet>)
    requires Good(ps) && ps != []
    ensures |Payload(ps)| > 0
  {
    assert ps[0] in ps && ps[0].Valid();
  }

  /** The head job has been sent. */
  ghost predicate Sent(s: Sock, r: Sock, used: seq<Answer>)
    requires Sound(s)
  {
    GoesOn(used) && r.kernel.wire == s.kernel.wire + HeadPayload(s)
  }

  /** Some of it is left. */
  ghost predicate CutShort(s: Sock, r: Sock)
    requires Sound(s) && Sound(r)
  {
    && s.kernel.wire <= r.kernel.wire
    && r.kernel.wire + HeadPayload(r) == s.kernel.wire + HeadPayload(s) && HeadPayload(r) != []
  }

  /** The bytes that one writev offers: those of the first 1024 packets. */
  function FirstBytes(ps: seq<Packet>): seq<byte>
    requires Good(ps)
  {
    Payload(if |ps| <= 1024 then ps else ps[..1024])
  }

  lemma FirstBytesIs(ps: seq<Packet>)
    requires Good(ps)
    ensures FirstBytes(ps) == Payload(Chunk(ps)) <= Payload(ps)
  {
    var chunk := Chunk(ps);
    assert ps == chunk + ps[|chunk|..] && (|ps| <= 1024 ==> chunk == ps);
    PayloadAppend(chunk, ps[|chunk|..]);
  }

  /** One writev: an answer that takes n bytes takes the first n of them, or all if they are fewer; the rest of
      the head job's bytes stays queued in order, and flushing goes on with that. */
  lemma GatherOutcome(s: Sock, n: nat) returns (t: Sock)
    requires Sound(s) && s.jobs[0].packets != [] && s.kernel.script != [] && s.kernel.script[0] == Accept(n)
    ensures Sound(t) && Flush(s) == Flush(t) && FirstBytes(s.jobs[0].packets) <= Payload(s.jobs[0].packets)
    ensures var sent, k := FirstBytes(s.jobs[0].packets), s.kernel;
      var m := if n < |sent| then n else |sent|;
      && t.kernel == Kernel(k.script[1..], k.wire + sent[..m], k.shut)
      && Payload(t.jobs[0].packets) == Payload(s.jobs[0].packets)[m..]
      && t.buffered == s.buffered - m && t.total == s.total - m
  {
    var ps := s.jobs[0].packets;
    FirstBytesIs(ps);
    hide FirstBytes, Chunk, Payload, Advance;
    var m := Min(n, |Payload(Chunk(ps))|);
    AdvanceTakes(ps, m);
    AdvanceValid(ps, m);
    t := Took(s, n);
  }

  /** How ape_socket_do_jobs ends: all is sent and nothing waits behind it; or all is sent and the connection
      is shut down as was asked for; or the kernel says EAGAIN and the socket waits; or the kernel fails and
      the connection is shut down. */
  ghost predicate JobsEnd(s: Sock, r: Sock, ret: int)
    requires Sound(s) && Sound(r) && |r.kernel.script| <= |s.kernel.script|
  {
    var used := Used(s, r);
    || (Sent(s, r, used) && s.cur == 0 && ret == 1
        && r.state == Online && !r.wouldBlock && !r.jobs[0].active && Queue(r.jobs) == [])
    || (Sent(s, r, used) && s.cur > 0 && ret == -1
        && r.state == Shutdown && r.kernel.shut && r.reclaims == s.reclaims + 1)
    || ((EndsWith(used, Again) || (GoesOn(used) && r.kernel.script == [])) && CutShort(s, r) && ret == 0
        && r.state == Online && r.wouldBlock && !r.kernel.shut)
    || (EndsWith(used, Fail) && CutShort(s, r) && ret == -1
        && r.state == Shutdown && r.kernel.shut && r.reclaims == s.reclaims + 1)
  }

  lemma JobsOutcome(s: Sock, h: Hist)
    requires Invariant(s, h) && s.state == Online && !s.wouldBlock && s.jobs[0].active
    ensures var (r, ret) := DoJobs(s, 0);
      |r.kernel.script| <= |s.kernel.script| && JobsEnd(s, r, ret)
  {
    var x := FlushDrains(s);
    FlushExplained(s);
    var (f, how) := Flush(s);
    match how
    case Blocked =>
      JobsCut(s, x, f);
    case Failed =>
      JobsCut(s, x, f);
    case Finished =>
      JobsSent(s, h, x);
  }

  lemma JobsCut(s: Sock, x: Sock, f: Sock)
    requires Flushable(s) && Drained(s, x) && x.jobs[0].packets != []
    requires f.jobs == x.jobs && f.kernel.wire == x.kernel.wire && Sound(f)
    ensures CutShort(s, f)
  {
    SomeLeft(x.jobs[0].packets);
  }

  /** What is needed of the state. */
  predicate Flushable(s: Sock) {
    WellFormed(s) && s.state == Online && !s.wouldBlock && s.jobs[0].active
  }

  lemma JobsSent(s: Sock, h: Hist, x: Sock)
    requires Invariant(s, h) && Flushable(s)
    requires Drained(s, x) && Flush(s) == (x, Finished) && x.jobs[0].packets == []
    requires |x.kernel.script| <= |s.kernel.script| && GoesOn(Used(s, x))
    ensures var (r, ret) := DoJobs(s, 0);
      |r.kernel.script| <= |s.kernel.script| && JobsEnd(s, r, ret)
  {
    FinishedJobs(s, x);
    assert x.kernel.wire + [] == x.kernel.wire;
    if s.cur == 0 {
      FinishedKeeps(s, h, x);
      IdleQueueEmpty(Complete(x));
    } else {
      FinishedShutdownKeeps(s, h, x);
    }
  }

  /** An idle socket has nothing to do. */
  lemma JobsIdle(s: Sock)
    requires Sound(s) && !s.jobs[0].active
    ensures DoJobs(s, 0) == (s, 0)
  {
  }

  /** on_drain is called, and then does its calls, if and only if there was something to send and all of it
      has been sent on a connection that stays up. */
  lemma DrainOutcome(s: Sock, h: Hist, e: Event)
    requires Invariant(s, h) && s.state == Online && !s.wouldBlock && e.Valid()
    ensures var r := DoJobs(s, 0).0;
      && Sound(r)
      && OnWritable(s, e) ==
           if s.jobs[0].active && r.state == Online && Queue(r.jobs) == [] then DoAll(r, e.onDrain) else r
  {
    if s.jobs[0].active {
      JobsOutcome(s, h);
      var r := DoJobs(s, 0).0;
      DoJobsKeeps(s, h);
      if Queue(r.jobs) == [] && r.state == Online && r.wouldBlock {
        NothingLeft(r);
      }
    } else {
      JobsIdle(s);
    }
  }

  lemma NothingLeft(r: Sock)
    requires Sound(r) && r.jobs != [] && Queue(r.jobs) == []
    ensures HeadPayload(r) == []
  {
  }

  /** The job list is drained on every writable event of a connection that is up, and on no other socket. */
  lemma WritableDrains(s: Sock, e: Event)
    requires Sound(s) && e.Valid() && e.writable && !e.readable && s.state == Online
    ensures OnEvent(s, e) == OnWritable(s.(wouldBlock := false), e)
  {
  }
}
