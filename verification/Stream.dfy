/** Bytes, as numbers. */
module Bytes {
  type byte = b: int | 0 <= b < 256

  function Min(a: nat, b: nat): nat {
    if a < b then a else b
  }
}

/** The outgoing byte path of one plain TCP client socket (ape_socket.c), as transitions on values. */
module Stream {
  import opened Bytes
  import opened Pools

  // ---------- the kernel ----------

  /** The kernel's answer to one write or writev call. */
  datatype Answer =
    | Accept(n: nat)  // takes n bytes, or all it was offered if that is less
    | Again           // EAGAIN
    | Intr            // EINTR
    | Fail            // any other error

  /** The answers still to come (EAGAIN once they run out), the bytes taken so far, and whether
      shutdown() was called. */
  datatype Kernel = Kernel(script: seq<Answer>, wire: seq<byte>, shut: bool)

  // ---------- the socket ----------

  /** ape_socket_data_autorelease */
  datatype Lifetime = Static | GlobalStatic | Autorelease | Own | Copy

  /** Who allocated a buffer: the caller, or ape_socket_queue_data making its n-th copy. */
  datatype BufId = User(n: nat) | Copied(n: nat)

  /** A data pointer: mem is all the memory that can be read from it on, so it may well go on past
      the bytes the caller meant. */
  datatype Buf = Buf(id: BufId, mem: seq<byte>)

  /** ape_socket_packet_t, filled */
  datatype Packet = Packet(buf: Buf, len: nat, offset: nat, life: Lifetime) {
    predicate Valid() {
      offset < len <= |buf.mem|
    }

    function Rest(): seq<byte>
      requires Valid()
    {
      buf.mem[offset..len]
    }

    /** What ape_socket_release_data frees. */
    function Owned(): seq<BufId> {
      if life == Autorelease || life == Copy then [buf.id] else []
    }
  }

  predicate Good(ps: seq<Packet>) {
    forall p :: p in ps ==> p.Valid()
  }

  /** ape_socket_jobs_t: the type bits WRITEV and SHUTDOWN, which are never cleared, the bit ACTIVE
      and the filled packets of its list. */
  datatype Job = Job(writev: bool, shutdown: bool, active: bool, packets: seq<Packet>)

  datatype State = Online | Progress | Pending | Offline | Shutdown

  datatype JobType = WriteJob | ShutdownJob

  const FRESH_JOB := Job(false, false, false, [])
  const MAX_CHUNKS: nat := 1024
  const MB: nat := 1048576
  const SIZE_T: nat := 0x1_0000_0000_0000_0000

  /** jobs are the slots of the job list in order and cur is the position of `current`; released
      lists the buffers passed to free and copies counts those made; reclaims counts the timers
      dispatched to dispose of the socket. */
  datatype Sock = Sock(
    kernel: Kernel,
    state: State,
    wouldBlock: bool,
    jobs: seq<Job>,
    cur: nat,
    limitMb: nat,
    buffered: int,
    total: int,
    copies: nat,
    released: seq<BufId>,
    reclaims: nat)
  {
    predicate Busy()
      requires jobs != []
    {
      wouldBlock || jobs[0].active
    }
  }

  /** The list positions make sense and every queued packet has bytes left. */
  predicate Sound(s: Sock) {
    && s.cur < |s.jobs|
    && forall j :: j in s.jobs ==> Good(j.packets)
  }

  // ---------- shutting down ----------

  /** ape_shutdown, for a client socket */
  function ApeShutdown(s: Sock): Sock {
    if s.state != Online then s
    else s.(kernel := s.kernel.(shut := true), state := Shutdown, reclaims := s.reclaims + 1)
  }

  /** ape_socket_destroy */
  function Destroy(s: Sock): Sock {
    if s.state == Offline then s else s.(state := Offline, reclaims := s.reclaims + 1)
  }

  /** APE_socket_shutdown_now */
  function ShutdownNow(s: Sock): Sock {
    match s.state
    case Progress | Pending => Destroy(s)
    case Online => ApeShutdown(s)
    case Shutdown | Offline => s
  }

  /** APE_socket_shutdown */
  function ShutdownQueued(s: Sock): (r: Sock)
    requires Sound(s)
    ensures Sound(r)
  {
    match s.state
    case Progress | Pending => Destroy(s)
    case Online => if s.Busy() then GetSlot(s, ShutdownJob) else ApeShutdown(s)
    case Shutdown | Offline => s
  }

  // ---------- queueing ----------

  function Activated(j: Job, kind: JobType): Job {
    match kind
    case WriteJob => j.(active := true, writev := true)
    case ShutdownJob => j.(active := true, shutdown := true)
  }

  /** The job list with a slot behind cur: when cur is the last one, two slots are added. */
  function Room(jobs: seq<Job>, cur: nat): (r: seq<Job>)
    requires cur < |jobs|
    ensures cur + 1 < |r|
    ensures forall i :: 0 <= i < |r| ==> r[i] == if i < |jobs| then jobs[i] else FRESH_JOB
  {
    if cur + 1 == |jobs| then jobs + [FRESH_JOB, FRESH_JOB] else jobs
  }

  /** ape_socket_job_get_slot: afterwards the slot is the one at cur. */
  function GetSlot(s: Sock, kind: JobType): (r: Sock)
    requires Sound(s)
    ensures Sound(r)
  {
    var j := s.jobs[s.cur];
    if (kind == WriteJob && j.writev) || !j.active then
      s.(jobs := s.jobs[s.cur := Activated(j, kind)])
    else
      var jobs := Room(s.jobs, s.cur);
      s.(jobs := jobs[s.cur + 1 := Activated(jobs[s.cur + 1], kind)], cur := s.cur + 1)
  }

  /** The limit in bytes, in size_t arithmetic. */
  function Limit(s: Sock): nat {
    (s.limitMb * MB) % SIZE_T
  }

  predicate Copying(life: Lifetime) {
    life == Static || life == Copy
  }

  /** The packet ape_socket_queue_data makes: scoped data is copied first. */
  function NewPacket(buf: Buf, len: nat, offset: nat, life: Lifetime, copies: nat): (p: Packet)
    requires offset < len <= |buf.mem|
    ensures p.Valid() && p.Rest() == buf.mem[offset..len]
  {
    if Copying(life) then Packet(Buf(Copied(copies), buf.mem[..len]), len, offset, Copy)
    else Packet(buf, len, offset, life)
  }

  function Append(jobs: seq<Job>, i: nat, p: Packet): seq<Job>
    requires i < |jobs|
  {
    jobs[i := jobs[i].(packets := jobs[i].packets + [p])]
  }

  /** The packet goes to the end of the slot that ape_socket_job_get_slot gives. */
  function Enqueue(s: Sock, p: Packet): (r: Sock)
    requires Sound(s) && p.Valid()
    ensures Sound(r)
  {
    var g := GetSlot(s, WriteJob);
    g.(jobs := Append(g.jobs, g.cur, p))
  }

  /** ape_socket_queue_data up to the test of the limit */
  function Queued(s: Sock, buf: Buf, len: nat, offset: nat, life: Lifetime): (r: Sock)
    requires Sound(s) && offset < len <= |buf.mem|
    ensures Sound(r)
  {
    Enqueue(s, NewPacket(buf, len, offset, life, s.copies)).(
      copies := if Copying(life) then s.copies + 1 else s.copies,
      buffered := s.buffered + (len - offset),
      total := s.total + (len - offset))
  }

  /** ape_socket_queue_data */
  function QueueData(s: Sock, buf: Buf, len: nat, offset: nat, life: Lifetime): (r: Sock)
    requires Sound(s) && offset < len <= |buf.mem|
    ensures Sound(r)
  {
    var q := Queued(s, buf, len, offset, life);
    if q.limitMb != 0 && q.buffered > Limit(q) then ShutdownNow(q) else q
  }

  // ---------- writing ----------

  datatype Outcome = Done | WouldBlock | IoError

  /** The loop of APE_socket_write. Every call offers len bytes from data + t on: r_bytes is never
      reduced, so after a short write more is offered than the caller asked to send. */
  function WriteLoop(k: Kernel, mem: seq<byte>, len: nat, t: nat): (r: (Kernel, nat, Outcome))
    requires t <= |mem| && len <= |mem|
    ensures t <= r.1 <= |mem|
    ensures r.2.Done? <==> r.1 >= len
    decreases |k.script|
  {
    if t >= len then (k, t, Done)
    else if k.script == [] then (k, t, WouldBlock)
    else
      var k' := k.(script := k.script[1..]);
      match k.script[0]
      case Accept(n) =>
        var m := Min(n, Min(len, |mem| - t));
        WriteLoop(k'.(wire := k'.wire + mem[t..t + m]), mem, len, t + m)
      case Again => (k', t, WouldBlock)
      case Intr | Fail => (k', t, IoError)
  }

  /** What APE_socket_write frees when it does not queue the buffer. */
  function Freed(buf: Buf, life: Lifetime): seq<BufId> {
    if life == Autorelease then [buf.id] else []
  }

  /** APE_socket_write, with what it returns */
  function Write(s: Sock, buf: Buf, len: nat, life: Lifetime): (r: (Sock, int))
    requires Sound(s) && len <= |buf.mem|
    ensures Sound(r.0)
  {
    var freed := Freed(buf, life);
    if s.state != Online || len == 0 then (s.(released := s.released + freed), -1)
    else if s.Busy() then (QueueData(s, buf, len, 0, life), len as int)
    else
      var (k, t, out) := WriteLoop(s.kernel, buf.mem, len, 0);
      var s' := s.(kernel := k);
      match out
      case WouldBlock => (QueueData(s'.(wouldBlock := true), buf, len, t, life), len as int)
      case IoError => (ShutdownNow(s'.(released := s.released + freed)), -1)
      case Done => (s'.(released := s.released + freed), 0)
  }

  // ---------- draining ----------

  /** The bytes of a run of packets. */
  function Payload(ps: seq<Packet>): seq<byte>
    requires Good(ps)
  {
    if ps == [] then [] else ps[0].Rest() + Payload(ps[1..])
  }

  /** What the while loop after a writev that took n bytes leaves of the packets, and what it frees. */
  function Advance(ps: seq<Packet>, n: nat): (seq<Packet>, seq<BufId>)
    requires Good(ps)
  {
    if ps == [] then ([], [])
    else
      var size := ps[0].len - ps[0].offset;
      if n < size then ([ps[0].(offset := ps[0].offset + n)] + ps[1..], [])
      else if n == size then (ps[1..], ps[0].Owned())
      else
        var (rest, freed) := Advance(ps[1..], n - size);
        (rest, ps[0].Owned() + freed)
  }

  /** The packets one writev call offers. */
  function Chunk(ps: seq<Packet>): seq<Packet> {
    ps[..Min(MAX_CHUNKS, |ps|)]
  }

  datatype Flushed = Finished | Blocked | Failed

  /** What is done after a writev that took n bytes of the head job's packets. */
  function Consumed(s: Sock, n: nat): Sock
    requires Sound(s)
  {
    var j := s.jobs[0];
    var (rest, freed) := Advance(j.packets, n);
    s.(jobs := s.jobs[0 := j.(packets := rest)],
       released := s.released + freed,
       buffered := s.buffered - n,
       total := s.total - n)
  }

  /** A writev that took at most n bytes of the head job's packets. */
  function Took(s: Sock, n: nat): Sock
    requires Sound(s) && s.kernel.script != []
  {
    var sent := Payload(Chunk(s.jobs[0].packets));
    var m := Min(n, |sent|);
    Consumed(s.(kernel := Kernel(s.kernel.script[1..], s.kernel.wire + sent[..m], s.kernel.shut)), m)
  }

  lemma {:induction false} AdvanceValid(ps: seq<Packet>, n: nat)
    requires Good(ps)
    ensures Good(Advance(ps, n).0)
  {
    if ps != [] {
      assert ps[0] in ps && forall p :: p in ps[1..] ==> p in ps;
      if n > ps[0].len - ps[0].offset {
        AdvanceValid(ps[1..], n - (ps[0].len - ps[0].offset));
      }
    }
  }

  /** The WRITEV case of ape_socket_do_jobs, for the head job. */
  function Flush(s: Sock): (r: (Sock, Flushed))
    requires Sound(s)
    ensures Sound(r.0) && |r.0.jobs| == |s.jobs| && r.0.cur == s.cur
    ensures r.0.jobs == s.jobs[0 := s.jobs[0].(packets := r.0.jobs[0].packets)]
    decreases |s.kernel.script|
  {
    var k := s.kernel;
    if s.jobs[0].packets == [] then (s, Finished)
    else if k.script == [] then (s.(wouldBlock := true), Blocked)
    else
      var s' := s.(kernel := k.(script := k.script[1..]));
      match k.script[0]
      case Again => (s'.(wouldBlock := true), Blocked)
      case Intr => Flush(s')
      case Fail => (ShutdownNow(s'), Failed)
      case Accept(n) =>
        AdvanceValid(s.jobs[0].packets, Min(n, |Payload(Chunk(s.jobs[0].packets))|));
        Flush(Took(s, n))
  }

  /** The head job is done: it is deactivated and moved behind `current`. */
  function Complete(s: Sock): (r: Sock)
    requires Sound(s)
    ensures Sound(r)
  {
    var jobs := s.jobs[0 := s.jobs[0].(active := false)];
    s.(jobs := Moved(jobs, s.cur))
  }

  function Active(jobs: seq<Job>): nat {
    if jobs == [] then 0 else (if jobs[0].active then 1 else 0) + Active(jobs[1..])
  }

  lemma {:induction false} ActiveAppend(a: seq<Job>, b: seq<Job>)
    ensures Active(a + b) == Active(a) + Active(b)
  {
    if a == [] {
      assert a + b == b;
    } else {
      assert (a + b)[1..] == a[1..] + b;
      ActiveAppend(a[1..], b);
    }
  }

  lemma ActiveComplete(s: Sock)
    requires Sound(s) && s.jobs[0].active
    ensures Active(Complete(s).jobs) == Active(s.jobs) - 1
  {
    var j := s.jobs[0].(active := false);
    var a, b := s.jobs[1..s.cur + 1], s.jobs[s.cur + 1..];
    MovedParts(s.jobs[0 := j], s.cur);
    assert s.jobs[1..] == a + b && s.jobs[0 := j][1..] == s.jobs[1..];
    assert ([j] + b)[1..] == b;
    ActiveAppend(a, [j] + b);
    ActiveAppend(a, b);
  }

  lemma {:induction false} ActiveSame(a: seq<Job>, b: seq<Job>)
    requires |a| == |b| && forall i :: 0 <= i < |a| ==> a[i].active == b[i].active
    ensures Active(a) == Active(b)
  {
    if a != [] {
      ActiveSame(a[1..], b[1..]);
    }
  }

  /** ape_socket_do_jobs, after `done` jobs; the result is what it returns. */
  function DoJobs(s: Sock, done: nat): (r: (Sock, int))
    requires Sound(s)
    ensures Sound(r.0)
    decreases Active(s.jobs)
  {
    var j := s.jobs[0];
    if !j.active then (s, done)
    else if j.writev && !j.shutdown then
      var (f, how) := Flush(s);
      match how
      case Blocked => (f, 0)
      case Failed => (f, -1)
      case Finished =>
        ActiveComplete(f);
        ActiveSame(s.jobs, f.jobs);
        DoJobs(Complete(f), done + 1)
    else if j.shutdown && !j.writev then (ApeShutdown(s), -1)
    else
      ActiveComplete(s);
      DoJobs(Complete(s), done + 1)
  }

  // ---------- the event loop ----------

  /** What a user callback may do to the socket. */
  datatype Call =
    | CallWrite(buf: Buf, len: nat, life: Lifetime)
    | CallShutdown
    | CallShutdownNow
  {
    predicate Valid() {
      CallWrite? ==> buf.id.User? && len <= |buf.mem|
    }
  }

  function Do(s: Sock, c: Call): (r: Sock)
    requires Sound(s) && c.Valid()
    ensures Sound(r)
  {
    match c
    case CallWrite(buf, len, life) => Write(s, buf, len, life).0
    case CallShutdown => ShutdownQueued(s)
    case CallShutdownNow => ShutdownNow(s)
  }

  function DoAll(s: Sock, cs: seq<Call>): (r: Sock)
    requires Sound(s) && forall c :: c in cs ==> c.Valid()
    ensures Sound(r)
    decreases cs
  {
    if cs == [] then s else DoAll(Do(s, cs[0]), cs[1..])
  }

  /** The bytes that a sequence of calls asks to send. */
  function Offered(calls: seq<Call>): seq<byte>
    requires forall c :: c in calls ==> c.Valid()
  {
    if calls == [] then []
    else
      var c := calls[0];
      assert c in calls && c.Valid();
      (if c.CallWrite? then c.buf.mem[..c.len] else []) + Offered(calls[1..])
  }

  lemma {:induction false} OfferedAppend(a: seq<Call>, b: seq<Call>)
    requires forall c :: c in a + b ==> c.Valid()
    ensures (forall c :: c in a ==> c.Valid()) && (forall c :: c in b ==> c.Valid())
    ensures Offered(a + b) == Offered(a) + Offered(b)
  {
    assert forall c :: c in a || c in b ==> c in a + b;
    if a == [] {
      assert a + b == b;
    } else {
      assert (a + b)[0] == a[0] && (a + b)[1..] == a[1..] + b;
      OfferedAppend(a[1..], b);
      assert a[0] in a;
    }
  }

  /** What one round of APE_loop_run finds for the socket: whether it can be read and written; what
      on_read does and whether the read hits the end or an error; whether a pending connect
      succeeded; and what on_connected and on_drain do. */
  datatype Event = Event(
    readable: bool, onRead: seq<Call>, hangup: bool,
    writable: bool, connects: bool, onConnected: seq<Call>, onDrain: seq<Call>)
  {
    predicate Valid() {
      forall c :: c in onRead + onConnected + onDrain ==> c.Valid()
    }
  }

  /** ape_socket_read; the second result says whether it returned -1. */
  function Read(s: Sock, calls: seq<Call>, hangup: bool): (r: (Sock, bool))
    requires Sound(s) && forall c :: c in calls ==> c.Valid()
    ensures Sound(r.0)
  {
    if s.state != Online then (s, false)
    else
      var s' := DoAll(s, calls);
      if hangup && s'.state != Shutdown then (Destroy(s'), true) else (s', false)
  }

  /** The client branch of APE_loop_run for a writable socket, after the read. */
  function OnWritable(s: Sock, e: Event): (r: Sock)
    requires Sound(s) && e.Valid()
    ensures Sound(r)
  {
    if s.state == Online && !s.wouldBlock then
      var (t, n) := DoJobs(s, 0);
      if n == 1 then DoAll(t, e.onDrain) else t
    else if s.state == Progress then
      if e.connects then DoAll(s.(state := Online), e.onConnected) else Destroy(s)
    else s
  }

  /** The client branch of APE_loop_run. */
  function OnEvent(s: Sock, e: Event): (r: Sock)
    requires Sound(s) && e.Valid()
    ensures Sound(r)
  {
    var s1 := if e.writable then s.(wouldBlock := false) else s;
    var (s2, gone) := if e.readable then Read(s1, e.onRead, e.hangup) else (s1, false);
    if e.writable && !gone then OnWritable(s2, e) else s2
  }

  // ---------- disposal ----------

  /** ape_socket_job_pool_cleaner, over the jobs in list order: the packets of the active WRITEV jobs
      are released and leave the global count. */
  function CleanJobs(jobs: seq<Job>): (nat, seq<BufId>)
    requires forall j :: j in jobs ==> Good(j.packets)
  {
    if jobs == [] then (0, [])
    else
      var (n, freed) := CleanJobs(jobs[1..]);
      var j := jobs[0];
      if j.active && j.writev && !j.shutdown then (|Payload(j.packets)| + n, OwnedBy(j.packets) + freed)
      else (n, freed)
  }

  function OwnedBy(ps: seq<Packet>): seq<BufId> {
    if ps == [] then [] else ps[0].Owned() + OwnedBy(ps[1..])
  }

  /** ape_socket_free */
  function Free(s: Sock): Sock
    requires Sound(s)
  {
    var (n, freed) := CleanJobs(s.jobs);
    s.(jobs := [], total := s.total - n, released := s.released + freed)
  }
}
