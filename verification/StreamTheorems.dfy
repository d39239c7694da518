/** The main results about the outgoing byte path of a socket. */
module StreamTheorems {
  import opened Options
  import opened Bytes
  import opened Pools
  import opened Stream
  import opened StreamRuns
  import opened StreamTraces
  import opened StreamInputs

  /** The order of the bytes, as long as no direct write offered the kernel too much. */
  lemma StreamOrder(x: Scenario)
    requires x.Valid() && !StrayIn(x.Trace())
    ensures var s := x.End();
      && s.kernel.wire <= AcceptedBy(x.Trace())
      && Good(Queue(s.jobs))
      && (Open(s) ==> AcceptedBy(x.Trace()) == s.kernel.wire + Payload(Queue(s.jobs)))
      && (s.state == Online && !s.jobs[0].active ==> s.kernel.wire == AcceptedBy(x.Trace()))
  {
    Summary(x);
    var s := x.End();
    QueueValid(s.jobs);
    if s.state == Online && !s.jobs[0].active {
      IdleQueueEmpty(s);
    }
  }

  /** The wire refines a FIFO byte stream. Whatever is called and however a steady kernel answers, the
      bytes given to the fd are a prefix of the accepted writes in call order, what is missing is
      exactly the queue in its order as long as the connection is up, and nothing is missing when the
      head job is inactive. With tight writes only (most = 0) any kernel will do. */
  lemma StreamRefinement(x: Scenario, most: nat)
    requires x.Valid() && Harmless(x, most)
    ensures var s := x.End();
      && s.kernel.wire <= AcceptedBy(x.Trace())
      && Good(Queue(s.jobs))
      && (Open(s) ==> AcceptedBy(x.Trace()) == s.kernel.wire + Payload(Queue(s.jobs)))
      && (s.state == Online && !s.jobs[0].active ==> s.kernel.wire == AcceptedBy(x.Trace()))
  {
    HarmlessRuns(x, most);
    StreamOrder(x);
  }

  /** The socket with other answers to come. */
  function Facing(s: Sock, script: seq<Answer>): Sock {
    s.(kernel := s.kernel.(script := script))
  }

  /** APE_socket_write offers the kernel len bytes again after a short write, so that more can get onto
      the wire than the caller wants to send. The next write is safe, whatever the kernel answers, if
      and only if it is not a direct one or it is tight. */
  lemma WriteExact(x: Scenario, most: nat, buf: Buf, len: nat, life: Lifetime)
    requires x.Valid() && Harmless(x, most) && len <= |buf.mem|
    ensures var s, before := x.End(), AcceptedBy(x.Trace());
      (forall script :: Write(Facing(s, script), buf, len, life).0.kernel.wire <= before + buf.mem[..len])
      <==> s.state != Online || len == 0 || s.Busy() || Tight(buf, len)
  {
    var s, before := x.End(), AcceptedBy(x.Trace());
    StreamRefinement(x, most);
    if s.state != Online || len == 0 || s.Busy() {
      forall script
        ensures Write(Facing(s, script), buf, len, life).0.kernel.wire <= before + buf.mem[..len]
      {
        IndirectWire(Facing(s, script), buf, len, life);
      }
    } else if Tight(buf, len) {
      forall script
        ensures Write(Facing(s, script), buf, len, life).0.kernel.wire <= before + buf.mem[..len]
      {
        DirectWire(Facing(s, script), buf, len, life);
        TightWrites(Facing(s, script).kernel, buf, len, 0);
      }
    } else {
      var bad := Facing(s, [Accept(1), Accept(len)]);
      DirectWire(bad, buf, len, life);
      LooseWrite(bad.kernel, buf, len);
      assert |Write(bad, buf, len, life).0.kernel.wire| > |before + buf.mem[..len]|;
    }
  }

  /** A write that is rejected or queued leaves the wire alone. */
  lemma IndirectWire(s: Sock, buf: Buf, len: nat, life: Lifetime)
    requires Sound(s) && len <= |buf.mem| && (s.state != Online || len == 0 || s.Busy())
    ensures Write(s, buf, len, life).0.kernel.wire == s.kernel.wire
  {
  }

  /** An input on which it fails: of two bytes to send, the kernel takes one and then two more. */
  lemma StrayByte(a: byte, b: byte, c: byte)
    ensures var buf := Buf(User(0), [a, b, c]);
      var s := NewSock(Online, [Accept(1), Accept(2)], 0, 0);
      Write(s, buf, 2, Own).0.kernel.wire == [a, b, c]
  {
    var k := Kernel([Accept(1), Accept(2)], [], false);
    var mem := [a, b, c];
    var k1 := Kernel([Accept(2)], [a], false);
    assert [] + mem[0..1] == [a];
    assert k.script[1..] == [Accept(2)];
    assert [a] + mem[1..3] == mem;
    assert WriteLoop(k, mem, 2, 0) == WriteLoop(k1, mem, 2, 1);
  }

  /** A shutdown that is asked for while data is pending lets exactly the bytes accepted before it
      through: no later byte is ever sent, and the fd is not shut down while the connection is up. */
  lemma GracefulShutdown(x: Scenario, most: nat)
    requires x.Valid() && Harmless(x, most) && CutOf(x.Trace()).Some?
    ensures var s, cut := x.End(), CutOf(x.Trace()).value;
      && cut <= |AcceptedBy(x.Trace())|
      && s.kernel.wire <= AcceptedBy(x.Trace())[..cut]
      && (s.kernel.shut ==> !Open(s))
  {
    HarmlessRuns(x, most);
    Summary(x);
  }

  /** An accepted connection without a limit, on which the kernel does not fail, the other end does not
      hang up and nobody calls APE_socket_shutdown_now, ends by the queued shutdown only, and then all
      bytes accepted before that call are on the wire, and no others. */
  lemma GracefulEnd(x: Scenario, most: nat)
    requires x.Valid() && Harmless(x, most) && Calm(x) && !Open(x.End())
    ensures CutOf(x.Trace()).Some?
    ensures x.End().kernel.shut
    ensures CutOf(x.Trace()).value <= |AcceptedBy(x.Trace())|
      && x.End().kernel.wire == AcceptedBy(x.Trace())[..CutOf(x.Trace()).value]
  {
    HarmlessRuns(x, most);
    CalmRuns(x);
    Summary(x);
  }

  /** Every time the loop goes back to polling, an online socket waits for a writable event if and
      only if there is something left to send. */
  lemma NoLostWakeup(x: Scenario)
    requires x.Valid() && x.End().state == Online
    ensures x.End().wouldBlock <==> x.End().jobs[0].active
    ensures x.End().wouldBlock <==> Queue(x.End().jobs) != []
  {
    Summary(x);
    var s := x.End();
    if s.jobs[0].active {
      assert Queue(s.jobs)[0] == s.jobs[0].packets[0];
    } else {
      IdleQueueEmpty(s);
    }
  }

  /** on_drain is called only when no byte is queued any more. */
  lemma DrainOnlyWhenEmpty(x: Scenario, e: Event)
    requires x.Valid() && e.Valid() && e.writable
    ensures var s1 := x.End().(wouldBlock := false);
      var (s2, gone) := if e.readable then Read(s1, e.onRead, e.hangup) else (s1, false);
      !gone && s2.state == Online && !s2.wouldBlock && DoJobs(s2, 0).1 == 1
      ==> Queue(DoJobs(s2, 0).0.jobs) == [] && DoJobs(s2, 0).0.buffered == 0
  {
    Summary(x);
    var s1 := x.End().(wouldBlock := false);
    WritableKeeps(x.End(), x.Past());
    var (s2, gone) := if e.readable then Read(s1, e.onRead, e.hangup) else (s1, false);
    var h2 := if e.readable then NoteRead(s1, x.Past(), e.onRead, e.hangup) else x.Past();
    if e.readable {
      ReadKeeps(s1, x.Past(), e.onRead, e.hangup);
    }
    if !gone && s2.state == Online && !s2.wouldBlock && DoJobs(s2, 0).1 == 1 {
      DoJobsKeeps(s2, h2);
      IdleQueueEmpty(DoJobs(s2, 0).0);
    }
  }

  /** The two byte counts are exact, and an online socket stays within its limit. */
  lemma ByteAccounting(x: Scenario)
    requires x.Valid()
    ensures var s := x.End();
      && Good(Queue(s.jobs))
      && s.buffered == |Payload(Queue(s.jobs))|
      && s.total == x.others + s.buffered
      && (s.state == Online && s.limitMb != 0 ==> s.buffered <= s.limitMb * MB)
  {
    Summary(x);
    QueueValid(x.End().jobs);
  }

  lemma {:induction false} CleanAllJobs(jobs: seq<Job>)
    requires Tidy(jobs) && forall j :: j in jobs ==> Good(j.packets)
    ensures Good(Queue(jobs)) && CleanJobs(jobs) == (|Payload(Queue(jobs))|, OwnedBy(Queue(jobs)))
  {
    QueueValid(jobs);
    if jobs != [] {
      var j := jobs[0];
      assert forall i :: 0 <= i < |jobs[1..]| ==> jobs[1..][i] == jobs[i + 1];
      CleanAllJobs(jobs[1..]);
      assert j in jobs && j == jobs[0];
      assert Tidy(jobs[1..]);
      if j.packets == [] {
        assert j.packets + Queue(jobs[1..]) == Queue(jobs[1..]);
      }
      PayloadAppend(j.packets, Queue(jobs[1..]));
      OwnedAppend(j.packets, Queue(jobs[1..]));
    }
  }

  /** Disposing of the socket, at any time, settles the books: every buffer the socket was
      responsible for has been freed exactly once, no other buffer was ever freed, and the global
      byte count is what it was without this socket. */
  lemma Ownership(x: Scenario)
    requires x.Valid()
    ensures multiset(Free(x.End()).released) == DueIn(x.Trace())
    ensures Free(x.End()).total == x.others
    ensures forall n: nat :: multiset(Free(x.End()).released)[Copied(n)] == if n < x.End().copies then 1 else 0
  {
    Summary(x);
    var s := x.End();
    CleanAllJobs(s.jobs);
    assert multiset(s.released + OwnedBy(Queue(s.jobs))) == multiset(s.released) + multiset(OwnedBy(Queue(s.jobs)));
  }

  /** How often a buffer was handed over for AUTORELEASE. */
  function HandedOver(tr: seq<Made>, n: nat): nat
    requires Genuine(tr)
  {
    if tr == [] then 0
    else
      var c := tr[0].call;
      (if c.CallWrite? && c.life == Autorelease && c.buf.id == User(n) then 1 else 0) + HandedOver(tr[1..], n)
  }

  lemma {:induction false} DueHandedOver(tr: seq<Made>, n: nat)
    requires Genuine(tr)
    ensures DueIn(tr)[User(n)] == HandedOver(tr, n)
  {
    if tr != [] {
      DueHandedOver(tr[1..], n);
    }
  }

  /** A caller's buffer is freed once for each time it was handed over for AUTORELEASE; so OWN,
      GLOBAL_STATIC, STATIC and COPY originals are never freed. */
  lemma CallerBuffers(x: Scenario, n: nat)
    requires x.Valid()
    ensures multiset(Free(x.End()).released)[User(n)] == HandedOver(x.Trace(), n)
  {
    Ownership(x);
    DueHandedOver(x.Trace(), n);
  }
}
