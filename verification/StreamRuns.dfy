/** What holds of the outgoing byte path over every run of calls, events and kernel answers. */
module StreamRuns {
  import opened Options
  import opened Bytes
  import opened Pools
  import opened Stream

  // ---------- the queue of packets ----------

  /** All queued packets, in the order in which they are to be sent. */
  function Queue(jobs: seq<Job>): seq<Packet> {
    if jobs == [] then [] else jobs[0].packets + Queue(jobs[1..])
  }

  lemma {:induction false} QueueValid(jobs: seq<Job>)
    requires forall j :: j in jobs ==> Good(j.packets)
    ensures Good(Queue(jobs))
  {
    if jobs != [] {
      assert jobs[0] in jobs && forall j :: j in jobs[1..] ==> j in jobs;
      QueueValid(jobs[1..]);
    }
  }

  lemma {:induction false} QueueAppend(a: seq<Job>, b: seq<Job>)
    ensures Queue(a + b) == Queue(a) + Queue(b)
  {
    if a == [] {
      assert a + b == b;
    } else {
      assert (a + b)[1..] == a[1..] + b;
      QueueAppend(a[1..], b);
    }
  }

  lemma {:induction false} QueueEmpty(jobs: seq<Job>)
    requires forall i :: 0 <= i < |jobs| ==> jobs[i].packets == []
    ensures Queue(jobs) == []
  {
    if jobs != [] {
      QueueEmpty(jobs[1..]);
    }
  }

  lemma QueueCons(j: Job, rest: seq<Job>)
    ensures Queue([j] + rest) == j.packets + Queue(rest)
  {
    assert ([j] + rest)[1..] == rest;
  }

  /** Nothing is queued behind position i, so what is added to the job there goes to the end. */
  lemma QueueAt(jobs: seq<Job>, i: nat, j: Job, ps: seq<Packet>)
    requires i < |jobs| && forall k :: i < k < |jobs| ==> jobs[k].packets == []
    requires j.packets == jobs[i].packets + ps
    ensures Queue(jobs[i := j]) == Queue(jobs) + ps
  {
    var a, b := jobs[..i], jobs[i + 1..];
    assert jobs == a + ([jobs[i]] + b) && jobs[i := j] == a + ([j] + b);
    QueueAppend(a, [jobs[i]] + b);
    QueueAppend(a, [j] + b);
    QueueCons(jobs[i], b);
    QueueCons(j, b);
    QueueEmpty(b);
  }

  lemma QueueMoved(jobs: seq<Job>, k: nat)
    requires k < |jobs| && jobs[0].packets == []
    ensures Queue(Moved(jobs, k)) == Queue(jobs)
  {
    var a, b := jobs[1..k + 1], jobs[k + 1..];
    MovedParts(jobs, k);
    QueueAppend(a, b);
    QueueAppend(a, [jobs[0]] + b);
    QueueCons(jobs[0], b);
  }

  // ---------- bytes and buffers of packets ----------

  lemma {:induction false} PayloadAppend(a: seq<Packet>, b: seq<Packet>)
    requires Good(a) && Good(b)
    ensures Good(a + b) && Payload(a + b) == Payload(a) + Payload(b)
  {
    if a == [] {
      assert a + b == b;
    } else {
      assert (a + b)[0] == a[0] && (a + b)[1..] == a[1..] + b;
      PayloadAppend(a[1..], b);
    }
  }

  lemma {:induction false} OwnedAppend(a: seq<Packet>, b: seq<Packet>)
    ensures OwnedBy(a + b) == OwnedBy(a) + OwnedBy(b)
  {
    if a == [] {
      assert a + b == b;
    } else {
      assert (a + b)[0] == a[0] && (a + b)[1..] == a[1..] + b;
      OwnedAppend(a[1..], b);
    }
  }

  /** Taking n bytes off the front of the packets leaves the rest of the bytes, and every buffer is
      then either freed or still held. */
  lemma {:induction false} AdvanceTakes(ps: seq<Packet>, n: nat)
    requires Good(ps) && n <= |Payload(ps)|
    ensures Good(Advance(ps, n).0)
    ensures Payload(Advance(ps, n).0) == Payload(ps)[n..]
    ensures Advance(ps, n).1 + OwnedBy(Advance(ps, n).0) == OwnedBy(ps)
  {
    if ps != [] {
      assert ps[0] in ps && forall p :: p in ps[1..] ==> p in ps;
      var size := ps[0].len - ps[0].offset;
      if n > size {
        AdvanceTakes(ps[1..], n - size);
      } else if n < size {
        var q := ps[0].(offset := ps[0].offset + n);
        assert ([q] + ps[1..])[1..] == ps[1..];
        assert q.Rest() == ps[0].Rest()[n..];
      }
    }
  }

  lemma ChunkPrefix(ps: seq<Packet>)
    requires Good(ps)
    ensures Good(Chunk(ps)) && Payload(Chunk(ps)) <= Payload(ps)
    ensures ps != [] ==> |Payload(Chunk(ps))| > 0
  {
    var k := Min(MAX_CHUNKS, |ps|);
    assert ps == ps[..k] + ps[k..];
    PayloadAppend(ps[..k], ps[k..]);
    if ps != [] {
      assert ps[0] in ps && Chunk(ps)[0] == ps[0];
    }
  }

  // ---------- the shape of the job list ----------

  /** Slot 0 is the WRITEV job being sent. Once something waits behind it, slot 1 is a SHUTDOWN job
      and everything up to `current` is active; what lies behind `current` was never used. */
  predicate Shape(jobs: seq<Job>, cur: nat) {
    && cur < |jobs|
    && !jobs[0].shutdown
    && (jobs[0].active ==> jobs[0].writev)
    && (cur > 0 ==> jobs[0].active && jobs[1].shutdown)
    && (forall i :: 0 < i <= cur ==> jobs[i].active && jobs[i].writev != jobs[i].shutdown)
    && (forall i :: cur < i < |jobs| ==> jobs[i] == FRESH_JOB)
    && (forall i :: 0 <= i <= cur ==> (jobs[i].packets != [] <==> jobs[i].active && jobs[i].writev))
  }

  /** Exactly the jobs that can be flushed, and cleaned, hold packets. */
  predicate Tidy(jobs: seq<Job>) {
    forall i :: 0 <= i < |jobs| ==> (jobs[i].packets != [] <==> jobs[i].active && jobs[i].writev && !jobs[i].shutdown)
  }

  predicate Open(s: Sock) {
    s.state != Shutdown && s.state != Offline
  }

  predicate WellFormed(s: Sock) {
    && Sound(s) && Tidy(s.jobs)
    && s.reclaims == (if Open(s) then 0 else 1)
    && (Open(s) ==>
      && Shape(s.jobs, s.cur)
      && !s.kernel.shut
      && (s.wouldBlock ==> s.jobs[0].active)
      && (s.state != Online ==> !s.jobs[0].active))
  }

  lemma QueueRoom(jobs: seq<Job>, cur: nat)
    requires cur < |jobs|
    ensures Queue(Room(jobs, cur)) == Queue(jobs)
  {
    QueueAppend(jobs, [FRESH_JOB, FRESH_JOB]);
    QueueEmpty([FRESH_JOB, FRESH_JOB]);
  }

  /** The slot handed out for a write takes part in the queue behind everything queued so far. */
  lemma SlotForWrite(s: Sock)
    requires Sound(s) && Shape(s.jobs, s.cur)
    ensures var g := GetSlot(s, WriteJob);
      && g == s.(jobs := g.jobs, cur := g.cur) && g.cur < |g.jobs|
      && (g.cur == 0 <==> s.cur == 0)
      && Queue(g.jobs) == Queue(s.jobs) && g.jobs[0].packets == s.jobs[0].packets
  {
    var g := GetSlot(s, WriteJob);
    if g.cur == s.cur {
      QueueAt(s.jobs, s.cur, g.jobs[g.cur], []);
    } else {
      QueueRoom(s.jobs, s.cur);
      QueueAt(Room(s.jobs, s.cur), g.cur, g.jobs[g.cur], []);
    }
  }

  /** What ape_socket_queue_data does to the queue. */
  lemma EnqueueKeeps(s: Sock, p: Packet)
    requires Sound(s) && Shape(s.jobs, s.cur) && p.Valid()
    ensures var e := Enqueue(s, p);
      && e == s.(jobs := e.jobs, cur := e.cur)
      && Queue(e.jobs) == Queue(s.jobs) + [p]
      && Shape(e.jobs, e.cur) && Tidy(e.jobs) && e.jobs[0].active
      && (e.cur == 0 <==> s.cur == 0)
      && e.jobs[0].packets == if s.cur == 0 then s.jobs[0].packets + [p] else s.jobs[0].packets
  {
    hide Queue;
    var g, e := GetSlot(s, WriteJob), Enqueue(s, p);
    SlotForWrite(s);
    QueueAt(g.jobs, g.cur, e.jobs[e.cur], [p]);
  }

  /** What queueing a SHUTDOWN job behind an active head does. */
  lemma ShutdownSlot(s: Sock)
    requires Sound(s) && Shape(s.jobs, s.cur) && s.jobs[0].active
    ensures var g := GetSlot(s, ShutdownJob);
      && g == s.(jobs := g.jobs, cur := g.cur)
      && Shape(g.jobs, g.cur) && Tidy(g.jobs) && g.cur > 0
      && g.jobs[0] == s.jobs[0]
  {
  }

  lemma ShutdownSlotQueue(s: Sock)
    requires Sound(s) && Shape(s.jobs, s.cur) && s.jobs[0].active
    ensures Queue(GetSlot(s, ShutdownJob).jobs) == Queue(s.jobs)
  {
    var g := GetSlot(s, ShutdownJob);
    QueueRoom(s.jobs, s.cur);
    QueueAt(Room(s.jobs, s.cur), g.cur, g.jobs[g.cur], []);
  }

  // ---------- a run and its history ----------

  /** What has been asked of the socket so far: the bytes of all accepted writes in call order; how
      many of them came before the first accepted APE_socket_shutdown; whether the connection ended
      in another way than by that shutdown; whether a direct write offered the kernel bytes that it
      was not asked to send and the kernel took them; the buffers that are to be freed; and the
      bytes buffered by other sockets. */
  datatype Hist = Hist(
    accepted: seq<byte>, cut: Option<nat>, abrupt: bool, stray: bool, due: multiset<BufId>, others: int)
  {
    /** The bytes accepted before the first accepted APE_socket_shutdown. */
    function BeforeCut(): seq<byte>
      requires cut.Some?
    {
      accepted[..Min(cut.value, |accepted|)]
    }
  }

  /** How far a direct write gets. */
  function Taken(s: Sock, buf: Buf, len: nat): nat
    requires len <= |buf.mem|
  {
    WriteLoop(s.kernel, buf.mem, len, 0).1
  }

  predicate Overruns(s: Sock, buf: Buf, len: nat)
    requires s.jobs != [] && len <= |buf.mem|
  {
    s.state == Online && len > 0 && !s.Busy() && Taken(s, buf, len) > len
  }

  /** The buffers a write makes the socket responsible for. */
  function Entrusted(s: Sock, r: Sock, buf: Buf, life: Lifetime): multiset<BufId> {
    (if life == Autorelease then multiset{buf.id} else multiset{})
    + (if r.copies > s.copies then multiset{Copied(s.copies)} else multiset{})
  }

  function Note(s: Sock, h: Hist, c: Call): Hist
    requires Sound(s) && c.Valid()
  {
    var r := Do(s, c);
    var ended := Open(s) && !Open(r);
    match c
    case CallWrite(buf, len, life) =>
      h.(accepted := if s.state == Online then h.accepted + buf.mem[..len] else h.accepted,
         abrupt := h.abrupt || ended,
         stray := h.stray || Overruns(s, buf, len),
         due := h.due + Entrusted(s, r, buf, life))
    case CallShutdown =>
      if s.state != Online then h.(abrupt := h.abrupt || ended)
      else if h.cut.None? then h.(cut := Some(|h.accepted|))
      else h
    case CallShutdownNow => h.(abrupt := h.abrupt || ended)
  }

  /** The books: the bytes in memory, and every buffer either freed or held exactly once. */
  predicate Balanced(s: Sock, h: Hist)
    requires Sound(s)
  {
    QueueValid(s.jobs);
    && s.buffered == |Payload(Queue(s.jobs))|
    && s.total == h.others + s.buffered
    && multiset(s.released) + multiset(OwnedBy(Queue(s.jobs))) == h.due
  }

  /** An online socket with a limit never holds more than the limit. */
  predicate Within(s: Sock) {
    s.state == Online && s.limitMb != 0 ==> s.buffered <= s.limitMb * MB
  }

  /** The order: as long as the connection is up, the wire followed by the queue is exactly what was
      accepted, and what was accepted before a queued shutdown is exactly the wire followed by the
      head job. */
  predicate Ordered(s: Sock, h: Hist)
    requires Sound(s)
  {
    QueueValid(s.jobs);
    if Open(s) then
      && h.accepted == s.kernel.wire + Payload(Queue(s.jobs))
      && (h.cut.Some? <==> s.cur > 0) && !h.abrupt
      && (h.cut.Some? ==> h.BeforeCut() == s.kernel.wire + Payload(s.jobs[0].packets))
    else
      && s.kernel.wire <= h.accepted
      && (h.cut.Some? ==> s.kernel.wire <= h.BeforeCut())
      && (!h.abrupt ==> h.cut.Some? && s.kernel.shut && s.kernel.wire == h.BeforeCut())
  }

  ghost predicate Invariant(s: Sock, h: Hist) {
    Core(s, h) && Within(s)
  }

  ghost predicate Core(s: Sock, h: Hist) {
    && WellFormed(s) && Balanced(s, h) && (!h.stray ==> Ordered(s, h))
    && (h.cut.Some? ==> h.cut.value <= |h.accepted|)
    && forall n: nat :: h.due[Copied(n)] == if n < s.copies then 1 else 0
  }

  // ---------- calls keep the invariant ----------

  /** Ending the connection early loses what is queued and nothing else. */
  lemma EndKeeps(s: Sock, h: Hist, r: Sock)
    requires Core(s, h) && Open(s)
    requires (s.state == Online && r == ApeShutdown(s)) || r == Destroy(s)
    ensures Invariant(r, h.(abrupt := true))
  {
    QueueValid(s.jobs);
  }

  lemma IdleQueueEmpty(s: Sock)
    requires WellFormed(s) && Open(s) && !s.jobs[0].active
    ensures s.cur == 0 && Queue(s.jobs) == []
  {
    QueueEmpty(s.jobs);
  }

  lemma PayloadNone()
    ensures Payload([]) == []
  {
  }

  lemma PayloadOne(ps: seq<Packet>, p: Packet)
    requires Good(ps) && p.Valid()
    ensures Good(ps + [p]) && Payload(ps + [p]) == Payload(ps) + p.Rest()
    ensures OwnedBy(ps + [p]) == OwnedBy(ps) + p.Owned()
  {
    assert Payload([p]) == p.Rest() + [] == p.Rest();
    assert OwnedBy([p]) == p.Owned() + [] == p.Owned();
    PayloadAppend(ps, [p]);
    OwnedAppend(ps, [p]);
  }

  /** t is s after a direct write put the first offset bytes on the wire; what is left is queued. */
  ghost predicate Partly(s: Sock, t: Sock, buf: Buf, offset: nat)
    requires offset <= |buf.mem| && s.jobs != []
  {
    && t == s.(kernel := t.kernel, wouldBlock := t.wouldBlock)
    && t.kernel.wire == s.kernel.wire + buf.mem[..offset] && t.kernel.shut == s.kernel.shut
    && (offset > 0 ==> !s.jobs[0].active)
  }

  lemma Interleave(wire: seq<byte>, queued: seq<byte>, sent: seq<byte>, left: seq<byte>)
    requires queued == [] || sent == []
    ensures (wire + queued) + (sent + left) == (wire + sent) + (queued + left)
  {
  }

  lemma CutKept(h: Hist, more: seq<byte>)
    requires h.cut.Some? ==> h.cut.value <= |h.accepted|
    ensures h.cut.Some? ==> h.(accepted := h.accepted + more).BeforeCut() == h.BeforeCut()
  {
  }

  lemma QueuedOrder(s: Sock, h: Hist, t: Sock, buf: Buf, len: nat, offset: nat, life: Lifetime)
    requires WellFormed(s) && Ordered(s, h) && s.state == Online
    requires h.cut.Some? ==> h.cut.value <= |h.accepted|
    requires offset < len <= |buf.mem| && Sound(t) && Partly(s, t, buf, offset)
    ensures Ordered(Queued(t, buf, len, offset, life), h.(accepted := h.accepted + buf.mem[..len]))
  {
    hide Shape, Tidy, Enqueue, Payload, OwnedBy, Queue, Good;
    PayloadNone();
    var p := NewPacket(buf, len, offset, life, s.copies);
    EnqueueKeeps(t, p);
    QueueValid(s.jobs);
    PayloadOne(Queue(s.jobs), p);
    if offset > 0 {
      IdleQueueEmpty(s);
    }
    assert buf.mem[..len] == buf.mem[..offset] + buf.mem[offset..len];
    Interleave(s.kernel.wire, Payload(Queue(s.jobs)), buf.mem[..offset], buf.mem[offset..len]);
    CutKept(h, buf.mem[..len]);
  }

  lemma QueuedBalance(s: Sock, h: Hist, t: Sock, buf: Buf, len: nat, offset: nat, life: Lifetime)
    requires WellFormed(s) && Balanced(s, h) && s.state == Online
    requires offset < len <= |buf.mem| && Sound(t) && Partly(s, t, buf, offset)
    ensures var q := Queued(t, buf, len, offset, life);
      Balanced(q, h.(due := h.due + Entrusted(s, q, buf, life)))
  {
    hide Shape, Tidy, Enqueue, Payload, OwnedBy, Queue, Good;
    var p := NewPacket(buf, len, offset, life, s.copies);
    EnqueueKeeps(t, p);
    QueueValid(s.jobs);
    PayloadOne(Queue(s.jobs), p);
  }

  lemma QueuedForm(s: Sock, t: Sock, buf: Buf, len: nat, offset: nat, life: Lifetime)
    requires WellFormed(s) && s.state == Online
    requires offset < len <= |buf.mem| && Sound(t) && Partly(s, t, buf, offset)
    ensures WellFormed(Queued(t, buf, len, offset, life))
  {
    EnqueueKeeps(t, NewPacket(buf, len, offset, life, s.copies));
  }

  lemma QueuedDue(s: Sock, h: Hist, t: Sock, buf: Buf, len: nat, offset: nat, life: Lifetime)
    requires forall n: nat :: h.due[Copied(n)] == if n < s.copies then 1 else 0
    requires Sound(s) && offset < len <= |buf.mem| && Sound(t) && Partly(s, t, buf, offset) && buf.id.User?
    ensures var q := Queued(t, buf, len, offset, life);
      forall n: nat :: (h.due + Entrusted(s, q, buf, life))[Copied(n)] == if n < q.copies then 1 else 0
  {
  }

  lemma QueuedKeeps(s: Sock, h: Hist, t: Sock, buf: Buf, len: nat, offset: nat, life: Lifetime)
    requires Core(s, h) && s.state == Online && buf.id.User?
    requires offset < len <= |buf.mem| && Sound(t) && Partly(s, t, buf, offset)
    ensures var q := Queued(t, buf, len, offset, life);
      Core(q, h.(accepted := h.accepted + buf.mem[..len], due := h.due + Entrusted(s, q, buf, life)))
  {
    QueuedForm(s, t, buf, len, offset, life);
    QueuedBalance(s, h, t, buf, len, offset, life);
    if !h.stray {
      QueuedOrder(s, h, t, buf, len, offset, life);
    }
    QueuedDue(s, h, t, buf, len, offset, life);
  }

  lemma LimitBound(s: Sock)
    ensures Limit(s) <= s.limitMb * MB
  {
  }

  /** The test of the limit at the end of ape_socket_queue_data. */
  lemma LimitKeeps(q: Sock, h: Hist)
    requires Core(q, h) && q.state == Online
    ensures var r := if q.limitMb != 0 && q.buffered > Limit(q) then ShutdownNow(q) else q;
      Invariant(r, h.(abrupt := h.abrupt || r.state != Online))
  {
    if q.limitMb != 0 && q.buffered > Limit(q) {
      EndKeeps(q, h, ApeShutdown(q));
    } else {
      LimitBound(q);
      assert h.(abrupt := h.abrupt) == h;
    }
  }

  /** Queueing what is left of a buffer, after a direct write sent the first offset bytes of it. */
  lemma QueueDataKeeps(s: Sock, h: Hist, t: Sock, buf: Buf, len: nat, offset: nat, life: Lifetime)
    requires Core(s, h) && s.state == Online && buf.id.User?
    requires offset < len <= |buf.mem| && Sound(t) && Partly(s, t, buf, offset)
    ensures var r := QueueData(t, buf, len, offset, life);
      Invariant(r, h.(
        accepted := h.accepted + buf.mem[..len],
        abrupt := h.abrupt || r.state != Online,
        due := h.due + Entrusted(s, r, buf, life)))
  {
    var q := Queued(t, buf, len, offset, life);
    var h' := h.(accepted := h.accepted + buf.mem[..len], due := h.due + Entrusted(s, q, buf, life));
    QueuedKeeps(s, h, t, buf, len, offset, life);
    LimitKeeps(q, h');
    hide Invariant, Core, Queued, Partly, Sound;
  }

  /** However the kernel answers, the loop puts a prefix of the memory on the wire. */
  lemma {:induction false} WriteLoopSends(k: Kernel, mem: seq<byte>, len: nat, t: nat)
    requires t <= |mem| && len <= |mem|
    ensures var r := WriteLoop(k, mem, len, t);
      r.0.wire == k.wire + mem[t..r.1] && r.0.shut == k.shut
    decreases |k.script|
  {
    if t < len && k.script != [] && k.script[0].Accept? {
      var m := Min(k.script[0].n, Min(len, |mem| - t));
      var k' := k.(script := k.script[1..], wire := k.wire + mem[t..t + m]);
      var r := WriteLoop(k', mem, len, t + m);
      WriteLoopSends(k', mem, len, t + m);
      assert mem[t..r.1] == mem[t..t + m] + mem[t + m..r.1];
    }
  }

  /** Freeing a buffer as soon as it is handed over. */
  lemma ReleaseKeeps(s: Sock, h: Hist, buf: Buf, life: Lifetime)
    requires Core(s, h) && buf.id.User?
    ensures Core(s.(released := s.released + Freed(buf, life)), h.(due := h.due + Entrusted(s, s, buf, life)))
  {
  }

  /** A direct write that came to its end: without a stray byte, exactly the buffer went out. */
  lemma DirectKeeps(s: Sock, h: Hist, k: Kernel, buf: Buf, len: nat, t: nat)
    requires Core(s, h) && s.state == Online && !s.Busy()
    requires len <= t <= |buf.mem| && k.wire == s.kernel.wire + buf.mem[..t] && k.shut == s.kernel.shut
    ensures Core(s.(kernel := k), h.(accepted := h.accepted + buf.mem[..len], stray := h.stray || t > len))
  {
    IdleQueueEmpty(s);
    CutKept(h, buf.mem[..len]);
  }

  /** A direct write that failed after t bytes: the rest is lost and the connection ends. */
  lemma BrokenKeeps(s: Sock, h: Hist, k: Kernel, buf: Buf, len: nat, t: nat)
    requires Core(s, h) && s.state == Online && !s.Busy()
    requires t <= len <= |buf.mem| && k.wire == s.kernel.wire + buf.mem[..t] && k.shut == s.kernel.shut
    ensures Core(ApeShutdown(s.(kernel := k)), h.(accepted := h.accepted + buf.mem[..len], abrupt := true))
  {
    IdleQueueEmpty(s);
    assert buf.mem[..t] <= buf.mem[..len];
  }

  lemma BlockedWriteKeeps(s: Sock, h: Hist, buf: Buf, len: nat, life: Lifetime)
    requires Core(s, h) && s.state == Online && !s.Busy() && 0 < len <= |buf.mem| && buf.id.User?
    requires WriteLoop(s.kernel, buf.mem, len, 0).2 == WouldBlock
    ensures Invariant(Write(s, buf, len, life).0, Note(s, h, CallWrite(buf, len, life)))
  {
    var (k, t, out) := WriteLoop(s.kernel, buf.mem, len, 0);
    WriteLoopSends(s.kernel, buf.mem, len, 0);
    assert buf.mem[0..t] == buf.mem[..t];
    QueueDataKeeps(s, h, s.(kernel := k, wouldBlock := true), buf, len, t, life);
  }

  lemma BrokenWriteKeeps(s: Sock, h: Hist, buf: Buf, len: nat, life: Lifetime)
    requires Core(s, h) && s.state == Online && !s.Busy() && 0 < len <= |buf.mem| && buf.id.User?
    requires WriteLoop(s.kernel, buf.mem, len, 0).2 == IoError
    ensures Invariant(Write(s, buf, len, life).0, Note(s, h, CallWrite(buf, len, life)))
  {
    var (k, t, out) := WriteLoop(s.kernel, buf.mem, len, 0);
    WriteLoopSends(s.kernel, buf.mem, len, 0);
    assert buf.mem[0..t] == buf.mem[..t];
    BrokenKeeps(s, h, k, buf, len, t);
    ReleaseKeeps(ApeShutdown(s.(kernel := k)), h.(accepted := h.accepted + buf.mem[..len], abrupt := true), buf, life);
  }

  lemma DoneWriteKeeps(s: Sock, h: Hist, buf: Buf, len: nat, life: Lifetime)
    requires Core(s, h) && Within(s) && s.state == Online && !s.Busy() && 0 < len <= |buf.mem| && buf.id.User?
    requires WriteLoop(s.kernel, buf.mem, len, 0).2 == Done
    ensures Invariant(Write(s, buf, len, life).0, Note(s, h, CallWrite(buf, len, life)))
  {
    var (k, t, out) := WriteLoop(s.kernel, buf.mem, len, 0);
    WriteLoopSends(s.kernel, buf.mem, len, 0);
    assert buf.mem[0..t] == buf.mem[..t];
    DirectKeeps(s, h, k, buf, len, t);
    var h' := h.(accepted := h.accepted + buf.mem[..len], stray := h.stray || t > len);
    ReleaseKeeps(s.(kernel := k), h', buf, life);
  }

  lemma WriteKeeps(s: Sock, h: Hist, buf: Buf, len: nat, life: Lifetime)
    requires Invariant(s, h) && len <= |buf.mem| && buf.id.User?
    ensures Invariant(Write(s, buf, len, life).0, Note(s, h, CallWrite(buf, len, life)))
  {
    if s.state != Online || len == 0 {
      ReleaseKeeps(s, h, buf, life);
      assert h.accepted + buf.mem[..0] == h.accepted;
    } else if s.Busy() {
      assert s.kernel.wire + buf.mem[..0] == s.kernel.wire;
      QueueDataKeeps(s, h, s, buf, len, 0, life);
    } else {
      match WriteLoop(s.kernel, buf.mem, len, 0).2
      case WouldBlock => BlockedWriteKeeps(s, h, buf, len, life);
      case IoError => BrokenWriteKeeps(s, h, buf, len, life);
      case Done => DoneWriteKeeps(s, h, buf, len, life);
    }
  }

  lemma QueuedShutdownKeeps(s: Sock, h: Hist)
    requires Invariant(s, h) && s.state == Online && s.Busy()
    ensures Invariant(ShutdownQueued(s), Note(s, h, CallShutdown))
  {
    QueueValid(s.jobs);
    ShutdownSlot(s);
    ShutdownSlotQueue(s);
    assert h.accepted[..|h.accepted|] == h.accepted;
    if s.cur == 0 {
      HeadQueue(s.jobs);
    }
  }

  lemma ShutdownKeeps(s: Sock, h: Hist)
    requires Invariant(s, h)
    ensures Invariant(ShutdownQueued(s), Note(s, h, CallShutdown))
  {
    if s.state == Online && s.Busy() {
      QueuedShutdownKeeps(s, h);
    } else if s.state == Online {
      IdleQueueEmpty(s);
      assert h.accepted[..|h.accepted|] == h.accepted;
      assert s.kernel.wire + [] == s.kernel.wire;
    } else if Open(s) {
      EndKeeps(s, h, Destroy(s));
    }
  }

  /** With nothing behind it, the head job holds the whole queue. */
  lemma HeadQueue(jobs: seq<Job>)
    requires Shape(jobs, 0)
    ensures Queue(jobs) == jobs[0].packets
  {
    QueueEmpty(jobs[1..]);
  }

  lemma ShutdownNowKeeps(s: Sock, h: Hist)
    requires Invariant(s, h)
    ensures Invariant(ShutdownNow(s), Note(s, h, CallShutdownNow))
  {
    if Open(s) {
      EndKeeps(s, h, ShutdownNow(s));
    }
  }

  function NoteAll(s: Sock, h: Hist, cs: seq<Call>): Hist
    requires Sound(s) && forall c :: c in cs ==> c.Valid()
    decreases cs
  {
    if cs == [] then h else NoteAll(Do(s, cs[0]), Note(s, h, cs[0]), cs[1..])
  }

  lemma DoKeeps(s: Sock, h: Hist, c: Call)
    requires Invariant(s, h) && c.Valid()
    ensures Invariant(Do(s, c), Note(s, h, c))
  {
    match c
    case CallWrite(buf, len, life) => WriteKeeps(s, h, buf, len, life);
    case CallShutdown => ShutdownKeeps(s, h);
    case CallShutdownNow => ShutdownNowKeeps(s, h);
  }

  lemma {:induction false} DoAllKeeps(s: Sock, h: Hist, cs: seq<Call>)
    requires Invariant(s, h) && forall c :: c in cs ==> c.Valid()
    ensures Invariant(DoAll(s, cs), NoteAll(s, h, cs))
    decreases cs
  {
    if cs != [] {
      DoKeeps(s, h, cs[0]);
      DoAllKeeps(Do(s, cs[0]), Note(s, h, cs[0]), cs[1..]);
    }
  }

  // ---------- draining keeps the invariant ----------

  function HeadPayload(s: Sock): seq<byte>
    requires Sound(s)
  {
    Payload(s.jobs[0].packets)
  }

  /** r is s after some bytes of the head job went to the wire: what is on the wire and in the head
      job together is unchanged, and so are the buffers that are freed or held by it. */
  ghost predicate Drained(s: Sock, r: Sock) {
    && Sound(s) && Sound(r)
    && r == s.(kernel := r.kernel, jobs := r.jobs, buffered := r.buffered, total := r.total, released := r.released)
    && r.kernel.shut == s.kernel.shut && s.kernel.wire <= r.kernel.wire
    && |r.jobs| == |s.jobs| && r.jobs[1..] == s.jobs[1..]
    && r.jobs[0] == s.jobs[0].(packets := r.jobs[0].packets)
    && r.kernel.wire + HeadPayload(r) == s.kernel.wire + HeadPayload(s)
    && r.released + OwnedBy(r.jobs[0].packets) == s.released + OwnedBy(s.jobs[0].packets)
    && r.buffered - |HeadPayload(r)| == s.buffered - |HeadPayload(s)|
    && r.total - |HeadPayload(r)| == s.total - |HeadPayload(s)|
  }

  /** One writev. */
  lemma TookDrains(s: Sock, n: nat)
    requires Sound(s) && s.kernel.script != []
    ensures Sound(Took(s, n)) && Drained(s, Took(s, n))
  {
    hide Advance, Payload, OwnedBy;
    var ps := s.jobs[0].packets;
    var sent := Payload(Chunk(ps));
    var m := Min(n, |sent|);
    ChunkPrefix(ps);
    AdvanceTakes(ps, m);
    assert sent[..m] + Payload(ps)[m..] == Payload(ps);
    var rest := Payload(Advance(ps, m).0);
    assert (s.kernel.wire + sent[..m]) + rest == s.kernel.wire + (sent[..m] + rest);
    var freed := Advance(ps, m).1;
    var held := OwnedBy(Advance(ps, m).0);
    assert (s.released + freed) + held == s.released + (freed + held);
  }

  lemma DrainedRest(s: Sock, r: Sock)
    requires Drained(s, r)
    ensures forall i :: 0 < i < |r.jobs| ==> r.jobs[i] == s.jobs[i]
  {
    assert forall i :: 0 < i < |r.jobs| ==> r.jobs[i] == r.jobs[1..][i - 1] == s.jobs[1..][i - 1] == s.jobs[i];
  }

  lemma DrainedTrans(s: Sock, t: Sock, r: Sock)
    requires Drained(s, t) && Drained(t, r)
    ensures Drained(s, r)
  {
  }

  /** Flushing drains the head job, then finishes it, is told to wait, or fails. */
  lemma {:induction false} FlushDrains(s: Sock) returns (x: Sock)
    requires Sound(s)
    ensures Drained(s, x)
    ensures match Flush(s).1
      case Finished => Flush(s).0 == x && x.jobs[0].packets == []
      case Blocked => Flush(s).0 == x.(wouldBlock := true) && x.jobs[0].packets != []
      case Failed => Flush(s).0 == ShutdownNow(x) && x.jobs[0].packets != []
    decreases |s.kernel.script|
  {
    hide Payload, OwnedBy, Queue, Good, Advance;
    x := s;
    if s.jobs[0].packets != [] && s.kernel.script != [] {
      var t := s.(kernel := s.kernel.(script := s.kernel.script[1..]));
      match s.kernel.script[0]
      case Again => x := t;
      case Fail => x := t;
      case Intr =>
        x := FlushDrains(t);
        DrainedTrans(s, t, x);
      case Accept(n) =>
        TookDrains(s, n);
        x := FlushDrains(Took(s, n));
        DrainedTrans(s, Took(s, n), x);
    }
  }

  /** How the queue looks after draining the head job. */
  lemma DrainedQueue(s: Sock, r: Sock)
    requires Drained(s, r)
    ensures Good(Queue(s.jobs)) && Good(Queue(r.jobs))
    ensures r.kernel.wire + Payload(Queue(r.jobs)) == s.kernel.wire + Payload(Queue(s.jobs))
    ensures r.buffered - |Payload(Queue(r.jobs))| == s.buffered - |Payload(Queue(s.jobs))|
    ensures r.total - r.buffered == s.total - s.buffered && r.buffered <= s.buffered
  {
    var tail := Queue(s.jobs[1..]);
    QueueValid(s.jobs);
    QueueValid(r.jobs);
    assert Good(tail) && Good(s.jobs[0].packets) && Good(r.jobs[0].packets);
    PayloadAppend(s.jobs[0].packets, tail);
    PayloadAppend(r.jobs[0].packets, tail);
    Reassoc(s.kernel.wire, HeadPayload(s), Payload(tail));
    Reassoc(r.kernel.wire, HeadPayload(r), Payload(tail));
    assert |r.kernel.wire + HeadPayload(r)| == |s.kernel.wire + HeadPayload(s)|;
  }

  /** Every buffer is still either freed or held. */
  lemma DrainedHeld(s: Sock, r: Sock)
    requires Drained(s, r)
    ensures multiset(r.released) + multiset(OwnedBy(Queue(r.jobs)))
      == multiset(s.released) + multiset(OwnedBy(Queue(s.jobs)))
  {
    OwnedAppend(s.jobs[0].packets, Queue(s.jobs[1..]));
    OwnedAppend(r.jobs[0].packets, Queue(s.jobs[1..]));
    SameTogether(s.released, OwnedBy(s.jobs[0].packets), r.released, OwnedBy(r.jobs[0].packets),
                 OwnedBy(Queue(s.jobs[1..])));
  }

  lemma SameTogether<T>(a: seq<T>, b: seq<T>, c: seq<T>, d: seq<T>, tail: seq<T>)
    requires a + b == c + d
    ensures multiset(a) + multiset(b + tail) == multiset(c) + multiset(d + tail)
  {
    assert multiset(a + b) == multiset(a) + multiset(b) && multiset(c + d) == multiset(c) + multiset(d);
    assert multiset(a) + multiset(b + tail) == (multiset(a) + multiset(b)) + multiset(tail);
    assert multiset(c) + multiset(d + tail) == (multiset(c) + multiset(d)) + multiset(tail);
  }

  lemma Reassoc<T>(a: seq<T>, b: seq<T>, c: seq<T>)
    ensures (a + b) + c == a + (b + c)
  {
  }

  /** A head job that is not finished yet. */
  lemma DrainedKeeps(s: Sock, h: Hist, r: Sock, wouldBlock: bool)
    requires Core(s, h) && Within(s) && s.state == Online && s.jobs[0].active
    requires Drained(s, r) && r.jobs[0].packets != []
    ensures Invariant(r.(wouldBlock := wouldBlock), h)
  {
    DrainedQueue(s, r);
    DrainedHeld(s, r);
    DrainedForm(s, r);
  }

  lemma DrainedForm(s: Sock, r: Sock)
    requires WellFormed(s) && s.state == Online && s.jobs[0].active
    requires Drained(s, r) && r.jobs[0].packets != []
    ensures Shape(r.jobs, r.cur) && Tidy(r.jobs)
  {
    DrainedRest(s, r);
  }

  lemma CompleteQueue(r: Sock)
    requires Sound(r) && r.jobs[0].packets == []
    ensures Queue(Complete(r).jobs) == Queue(r.jobs)
  {
    var jobs := r.jobs[0 := r.jobs[0].(active := false)];
    QueueSame(r.jobs, jobs);
    QueueMoved(jobs, r.cur);
  }

  lemma QueueSame(a: seq<Job>, b: seq<Job>)
    requires a != [] && b != [] && a[0].packets == b[0].packets && a[1..] == b[1..]
    ensures Queue(a) == Queue(b)
  {
  }

  /** A finished head job with nothing behind it. */
  lemma FinishedKeeps(s: Sock, h: Hist, r: Sock)
    requires Core(s, h) && Within(s) && s.state == Online && s.jobs[0].active && !s.wouldBlock && s.cur == 0
    requires Drained(s, r) && r.jobs[0].packets == []
    ensures Invariant(Complete(r), h) && !Complete(r).jobs[0].active
  {
    DrainedQueue(s, r);
    DrainedHeld(s, r);
    CompleteQueue(r);
    var c := Complete(r);
    assert c.jobs == r.jobs[0 := r.jobs[0].(active := false)];
    DrainedRest(s, r);
  }

  /** A finished head job with a SHUTDOWN job behind it: the connection is shut down with exactly the
      bytes on the wire that were accepted before the shutdown was asked for. */
  lemma FinishedShutdownKeeps(s: Sock, h: Hist, r: Sock)
    requires Core(s, h) && s.state == Online && s.jobs[0].active && s.cur > 0
    requires Drained(s, r) && r.jobs[0].packets == []
    ensures var c := Complete(r);
      && c.jobs[0].active && c.jobs[0].shutdown && !c.jobs[0].writev && c.state == Online
      && Invariant(ApeShutdown(c), h)
  {
    DrainedQueue(s, r);
    DrainedHeld(s, r);
    CompleteQueue(r);
    FinishedForm(s, r);
    assert r.kernel.wire + [] == r.kernel.wire;
  }

  lemma FinishedForm(s: Sock, r: Sock)
    requires Shape(s.jobs, s.cur) && s.cur > 0 && Drained(s, r) && r.jobs[0].packets == []
    ensures Complete(r).jobs[0] == s.jobs[1] && Tidy(Complete(r).jobs)
  {
    DrainedRest(s, r);
  }

  /** What ape_socket_do_jobs leaves behind. It ends the connection either by the SHUTDOWN job, or
      abruptly by an I/O error. */
  function NoteJobs(s: Sock, h: Hist): Hist
    requires Sound(s)
  {
    var r := DoJobs(s, 0).0;
    h.(abrupt := h.abrupt || (Open(s) && !Open(r) && r.jobs[0].writev))
  }

  lemma DoJobsKeeps(s: Sock, h: Hist)
    requires Invariant(s, h) && s.state == Online && !s.wouldBlock
    ensures Invariant(DoJobs(s, 0).0, NoteJobs(s, h))
    ensures var r := DoJobs(s, 0).0; r.state == Online ==> (r.wouldBlock <==> r.jobs[0].active)
    ensures DoJobs(s, 0).1 == 1 ==> DoJobs(s, 0).0.state == Online && !DoJobs(s, 0).0.jobs[0].active
  {
    if s.jobs[0].active {
      var x := FlushDrains(s);
      match Flush(s).1
      case Blocked => DrainedKeeps(s, h, x, true);
      case Failed =>
        DrainedKeeps(s, h, x, false);
        assert x.(wouldBlock := false) == x;
        EndKeeps(x, h, ApeShutdown(x));
      case Finished =>
        FinishedJobs(s, x);
        if s.cur == 0 {
          FinishedKeeps(s, h, x);
        } else {
          FinishedShutdownKeeps(s, h, x);
        }
    } else {
      assert h.(abrupt := h.abrupt) == h;
    }
  }

  lemma FinishedJobs(s: Sock, x: Sock)
    requires WellFormed(s) && s.state == Online && s.jobs[0].active && !s.wouldBlock
    requires Drained(s, x) && Flush(s) == (x, Finished) && x.jobs[0].packets == []
    ensures DoJobs(s, 0) == DoJobs(Complete(x), 1)
  {
  }

  // ---------- events and runs ----------

  function NoteRead(s: Sock, h: Hist, calls: seq<Call>, hangup: bool): Hist
    requires Sound(s) && forall c :: c in calls ==> c.Valid()
  {
    if s.state != Online then h
    else
      var h' := NoteAll(s, h, calls);
      if hangup && Open(DoAll(s, calls)) then h'.(abrupt := true) else h'
  }

  function NoteWritable(s: Sock, h: Hist, e: Event): Hist
    requires Sound(s) && e.Valid()
  {
    if s.state == Online && !s.wouldBlock then
      var (t, n) := DoJobs(s, 0);
      if n == 1 then NoteAll(t, NoteJobs(s, h), e.onDrain) else NoteJobs(s, h)
    else if s.state == Progress then
      if e.connects then NoteAll(s.(state := Online), h, e.onConnected) else h.(abrupt := true)
    else h
  }

  function NoteEvent(s: Sock, h: Hist, e: Event): Hist
    requires Sound(s) && e.Valid()
  {
    var s1 := if e.writable then s.(wouldBlock := false) else s;
    var (s2, gone) := if e.readable then Read(s1, e.onRead, e.hangup) else (s1, false);
    var h2 := if e.readable then NoteRead(s1, h, e.onRead, e.hangup) else h;
    if e.writable && !gone then NoteWritable(s2, h2, e) else h2
  }

  /** Open states are left only through calls that the socket accepts while it is online. */
  lemma {:induction false} DoAllOpen(s: Sock, cs: seq<Call>)
    requires Sound(s) && s.state == Online && forall c :: c in cs ==> c.Valid()
    ensures DoAll(s, cs).state == Online || DoAll(s, cs).state == Shutdown
    decreases cs
  {
    if cs != [] {
      if Do(s, cs[0]).state == Online {
        DoAllOpen(Do(s, cs[0]), cs[1..]);
      } else {
        DoAllShut(Do(s, cs[0]), cs[1..]);
      }
    }
  }

  lemma {:induction false} DoAllShut(s: Sock, cs: seq<Call>)
    requires Sound(s) && s.state == Shutdown && forall c :: c in cs ==> c.Valid()
    ensures DoAll(s, cs).state == Shutdown
    decreases cs
  {
    if cs != [] {
      DoAllShut(Do(s, cs[0]), cs[1..]);
    }
  }

  lemma ReadKeeps(s: Sock, h: Hist, calls: seq<Call>, hangup: bool)
    requires Invariant(s, h) && forall c :: c in calls ==> c.Valid()
    ensures Invariant(Read(s, calls, hangup).0, NoteRead(s, h, calls, hangup))
    ensures var (r, gone) := Read(s, calls, hangup); gone ==> !Open(r)
  {
    if s.state == Online {
      DoAllKeeps(s, h, calls);
      DoAllOpen(s, calls);
      if hangup && Open(DoAll(s, calls)) {
        EndKeeps(DoAll(s, calls), NoteAll(s, h, calls), Destroy(DoAll(s, calls)));
      }
    }
  }

  /** Between rounds of the event loop: the socket waits for a writable event if and only if it has
      something to send. */
  predicate Polling(s: Sock)
    requires s.jobs != []
  {
    s.state == Online ==> (s.wouldBlock <==> s.jobs[0].active)
  }

  lemma DoPolling(s: Sock, h: Hist, c: Call)
    requires Invariant(s, h) && Polling(s) && c.Valid()
    ensures Polling(Do(s, c))
  {
    if s.state == Online {
      match c
      case CallWrite(buf, len, life) =>
        if len > 0 && s.Busy() {
          EnqueueKeeps(s, NewPacket(buf, len, 0, life, s.copies));
        } else if len > 0 {
          var (k, t, out) := WriteLoop(s.kernel, buf.mem, len, 0);
          if out == WouldBlock {
            EnqueueKeeps(s.(kernel := k, wouldBlock := true), NewPacket(buf, len, t, life, s.copies));
          }
        }
      case CallShutdown =>
        if s.Busy() {
          ShutdownSlot(s);
        }
      case CallShutdownNow =>
    }
  }

  lemma {:induction false} DoAllPolling(s: Sock, h: Hist, cs: seq<Call>)
    requires Invariant(s, h) && Polling(s) && forall c :: c in cs ==> c.Valid()
    ensures Polling(DoAll(s, cs))
    decreases cs
  {
    if cs != [] {
      DoKeeps(s, h, cs[0]);
      DoPolling(s, h, cs[0]);
      DoAllPolling(Do(s, cs[0]), Note(s, h, cs[0]), cs[1..]);
    }
  }

  lemma ConnectKeeps(s: Sock, h: Hist)
    requires Invariant(s, h) && s.state == Progress
    ensures Invariant(s.(state := Online), h) && Polling(s.(state := Online))
  {
    IdleQueueEmpty(s);
  }

  lemma WritableKeeps(s: Sock, h: Hist)
    requires Invariant(s, h)
    ensures Invariant(s.(wouldBlock := false), h)
  {
  }

  lemma DrainKeeps(s: Sock, h: Hist, e: Event)
    requires Invariant(s, h) && e.Valid() && s.state == Online && !s.wouldBlock
    ensures Invariant(OnWritable(s, e), NoteWritable(s, h, e)) && Polling(OnWritable(s, e))
  {
    DoJobsKeeps(s, h);
    var (t, n) := DoJobs(s, 0);
    if n == 1 {
      DoAllKeeps(t, NoteJobs(s, h), e.onDrain);
      DoAllPolling(t, NoteJobs(s, h), e.onDrain);
    }
  }

  lemma WritableBranchKeeps(s: Sock, h: Hist, e: Event)
    requires Invariant(s, h) && e.Valid()
    ensures Invariant(OnWritable(s, e), NoteWritable(s, h, e)) && Polling(OnWritable(s, e))
  {
    if s.state == Online && !s.wouldBlock {
      DrainKeeps(s, h, e);
    } else if s.state == Progress {
      if e.connects {
        ConnectKeeps(s, h);
        DoAllKeeps(s.(state := Online), h, e.onConnected);
        DoAllPolling(s.(state := Online), h, e.onConnected);
      } else {
        EndKeeps(s, h, Destroy(s));
      }
    }
  }

  lemma ReadPolling(s: Sock, h: Hist, calls: seq<Call>, hangup: bool)
    requires Invariant(s, h) && Polling(s) && forall c :: c in calls ==> c.Valid()
    ensures Polling(Read(s, calls, hangup).0)
  {
    if s.state == Online {
      DoAllPolling(s, h, calls);
    }
  }

  lemma EventKeeps(s: Sock, h: Hist, e: Event)
    requires Invariant(s, h) && e.Valid()
    ensures Invariant(OnEvent(s, e), NoteEvent(s, h, e))
    ensures Polling(s) ==> Polling(OnEvent(s, e))
  {
    var s1 := if e.writable then s.(wouldBlock := false) else s;
    WritableKeeps(s, h);
    var (s2, gone) := if e.readable then Read(s1, e.onRead, e.hangup) else (s1, false);
    var h2 := if e.readable then NoteRead(s1, h, e.onRead, e.hangup) else h;
    if e.readable {
      ReadKeeps(s1, h, e.onRead, e.hangup);
      if Polling(s1) {
        ReadPolling(s1, h, e.onRead, e.hangup);
      }
    }
    if e.writable && !gone {
      WritableBranchKeeps(s2, h2, e);
    }
  }

  /** What can happen to a socket from outside. */
  datatype Op = Api(call: Call) | Loop(event: Event) {
    predicate Valid() {
      match this
      case Api(c) => c.Valid()
      case Loop(e) => e.Valid()
    }
  }

  function Step(s: Sock, op: Op): (r: Sock)
    requires Sound(s) && op.Valid()
    ensures Sound(r)
  {
    match op
    case Api(c) => Do(s, c)
    case Loop(e) => OnEvent(s, e)
  }

  function NoteStep(s: Sock, h: Hist, op: Op): Hist
    requires Sound(s) && op.Valid()
  {
    match op
    case Api(c) => Note(s, h, c)
    case Loop(e) => NoteEvent(s, h, e)
  }

  function Run(s: Sock, ops: seq<Op>): (r: Sock)
    requires Sound(s) && forall op :: op in ops ==> op.Valid()
    ensures Sound(r)
    decreases ops
  {
    if ops == [] then s else Run(Step(s, ops[0]), ops[1..])
  }

  function NoteRun(s: Sock, h: Hist, ops: seq<Op>): Hist
    requires Sound(s) && forall op :: op in ops ==> op.Valid()
    decreases ops
  {
    if ops == [] then h else NoteRun(Step(s, ops[0]), NoteStep(s, h, ops[0]), ops[1..])
  }

  /** APE_socket_new, with the answers the kernel is going to give. The state is PENDING, unless the
      socket was accepted by a server, which makes it ONLINE, or is being connected. */
  function NewSock(state: State, script: seq<Answer>, limitMb: nat, others: int): (r: Sock)
    ensures Sound(r)
  {
    Sock(Kernel(script, [], false), state, false, [FRESH_JOB, FRESH_JOB], 0, limitMb, 0, others, 0, [], 0)
  }

  function NewHist(others: int): Hist {
    Hist([], None, false, false, multiset{}, others)
  }

  lemma {:induction false} RunKeeps(s: Sock, h: Hist, ops: seq<Op>)
    requires Invariant(s, h) && Polling(s) && forall op :: op in ops ==> op.Valid()
    ensures Invariant(Run(s, ops), NoteRun(s, h, ops)) && Polling(Run(s, ops))
    decreases ops
  {
    if ops != [] {
      assert ops[0].Valid();
      match ops[0] {
        case Api(c) =>
          DoKeeps(s, h, c);
          DoPolling(s, h, c);
        case Loop(e) => EventKeeps(s, h, e);
      }
      RunKeeps(Step(s, ops[0]), NoteStep(s, h, ops[0]), ops[1..]);
    }
  }

  /** Everything below is about this: a new socket, and any sequence of calls and events. */
  lemma AnyRun(state: State, script: seq<Answer>, limitMb: nat, others: int, ops: seq<Op>)
    requires state != Shutdown && state != Offline && forall op :: op in ops ==> op.Valid()
    ensures var s := NewSock(state, script, limitMb, others);
      Invariant(Run(s, ops), NoteRun(s, NewHist(others), ops)) && Polling(Run(s, ops))
  {
    var s := NewSock(state, script, limitMb, others);
    QueueEmpty(s.jobs);
    var due: multiset<BufId> := multiset{};
    assert forall n: nat :: Copied(n) !in due;
    RunKeeps(s, NewHist(others), ops);
  }
}
