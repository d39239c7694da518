/** The socket object of ape_socket.c: a pool of job slots whose WRITEV jobs hold packet rings. Every
    method is proved against the transition of the same name in Stream. */
module Sockets {
  import opened Bytes
  import opened Pools
  import S = Stream
  import opened PacketRings
  import opened JobLists

  /** The answer to a write or writev call. */
  datatype Reply = Sent(n: nat) | Refused | Interrupted | Broken

  /** How the kernel replies to being offered some bytes: nothing to do for no bytes, EAGAIN once the
      script has run out. */
  function ReplyTo(k: S.Kernel, data: seq<byte>): (Reply, S.Kernel) {
    if data == [] then (Sent(0), k)
    else if k.script == [] then (Refused, k)
    else
      var k' := k.(script := k.script[1..]);
      match k.script[0]
      case Accept(n) => (Sent(Min(n, |data|)), k'.(wire := k.wire + data[..Min(n, |data|)]))
      case Again => (Refused, k')
      case Intr => (Interrupted, k')
      case Fail => (Broken, k')
  }

  /** The reply of the `rewrite` loop, which asks again after EINTR. */
  function RewriteReply(k: S.Kernel, data: seq<byte>): (Reply, S.Kernel)
    decreases |k.script|
  {
    var (reply, k') := ReplyTo(k, data);
    if reply == Interrupted then RewriteReply(k', data) else (reply, k')
  }

  /** What lies around the socket: the kernel's end of the fd, the allocator and the global state. */
  class World {
    var kernel: S.Kernel
    var total: int              // total_memory_buffered
    var released: seq<S.BufId>  // buffers passed to free
    var copies: nat             // buffers made by malloc and memcpy
    var reclaims: nat           // timers dispatched to dispose of the socket

    constructor (script: seq<S.Answer>, total: int)
      ensures kernel == S.Kernel(script, [], false)
      ensures this.total == total && released == [] && copies == 0 && reclaims == 0
    {
      kernel := S.Kernel(script, [], false);
      this.total := total;
      released, copies, reclaims := [], 0, 0;
    }

    /** write or writev */
    method Send(data: seq<byte>) returns (r: Reply)
      modifies this`kernel
      ensures (r, kernel) == ReplyTo(old(kernel), data)
    {
      if data == [] {
        return Sent(0);
      }
      if kernel.script == [] {
        return Refused;
      }
      var a := kernel.script[0];
      kernel := kernel.(script := kernel.script[1..]);
      match a
      case Accept(n) =>
        var m := Min(n, |data|);
        kernel := kernel.(wire := kernel.wire + data[..m]);
        r := Sent(m);
      case Again => r := Refused;
      case Intr => r := Interrupted;
      case Fail => r := Broken;
    }

    /** The `rewrite` loop of ape_socket_do_jobs. */
    method Rewrite(data: seq<byte>) returns (r: Reply)
      modifies this`kernel
      ensures (r, kernel) == RewriteReply(old(kernel), data)
    {
      r := Send(data);
      while r == Interrupted
        invariant RewriteReply(old(kernel), data) ==
          if r == Interrupted then RewriteReply(kernel, data) else (r, kernel)
        decreases |kernel.script| + if r == Interrupted then 1 else 0
      {
        r := Send(data);
      }
    }
  }

  ghost function RingsOf(table: seq<JobSlot>): (r: seq<PacketRing?>)
    ensures |r| == |table| && forall i :: 0 <= i < |r| ==> r[i] == table[i].ring
  {
    seq(|table|, i requires 0 <= i < |table| => table[i].ring)
  }

  /** The rings hold these packets; each uses objects of its own, all among repr. */
  ghost predicate RingsOk(rings: seq<PacketRing?>, packets: seq<seq<S.Packet>>, repr: set<object>)
    reads repr
  {
    && |rings| == |packets|
    && (forall i :: 0 <= i < |rings| ==> RingAt(rings, packets, repr, i))
    && (forall i, j :: 0 <= i < |rings| && 0 <= j < |rings| && i != j ==> RingsApart(rings, repr, i, j))
  }

  ghost predicate RingsApart(rings: seq<PacketRing?>, repr: set<object>, i: nat, j: nat)
    requires i < |rings| && j < |rings|
    reads repr
  {
    rings[i] != null && rings[j] != null ==>
      rings[i] in repr && rings[j] in repr && rings[i].Repr !! rings[j].Repr
  }

  ghost predicate RingAt(rings: seq<PacketRing?>, packets: seq<seq<S.Packet>>, repr: set<object>, i: nat)
    requires i < |rings| == |packets|
    reads repr
  {
    var r := rings[i];
    if r == null then packets[i] == []
    else r in repr && r.Repr <= repr && r.Valid() && r.contents == packets[i]
  }

  lemma RingsMore(rings: seq<PacketRing?>, packets: seq<seq<S.Packet>>, repr: set<object>)
    requires RingsOk(rings, packets, repr)
    ensures RingsOk(rings + [null, null], packets + [[], []], repr)
  {
    var rings' := rings + [null, null];
    forall i | 0 <= i < |rings'|
      ensures RingAt(rings', packets + [[], []], repr, i)
    {
      assert i < |rings| ==> RingAt(rings, packets, repr, i);
    }
    forall i, j | 0 <= i < |rings'| && 0 <= j < |rings'| && i != j
      ensures RingsApart(rings', repr, i, j)
    {
      assert i < |rings| && j < |rings| ==> RingsApart(rings, repr, i, j);
    }
  }

  /** The jobs that slots with these packets stand for. */
  ghost function JobsOf(table: seq<JobSlot>, packets: seq<seq<S.Packet>>): (r: seq<S.Job>)
    requires |table| == |packets|
    ensures |r| == |table|
    ensures forall i {:trigger r[i]} :: 0 <= i < |r| ==>
      r[i] == S.Job(table[i].writev, table[i].shutdown, table[i].active, packets[i])
  {
    seq(|table|, i requires 0 <= i < |table| => S.Job(table[i].writev, table[i].shutdown, table[i].active, packets[i]))
  }

  ghost function JobOf(d: JobSlot, packets: seq<S.Packet>): S.Job {
    S.Job(d.writev, d.shutdown, d.active, packets)
  }

  lemma SlotChanged(table: seq<JobSlot>, packets: seq<seq<S.Packet>>, k: nat, d: JobSlot)
    requires k < |table| == |packets|
    ensures JobsOf(table[k := d], packets) == JobsOf(table, packets)[k := JobOf(d, packets[k])]
    ensures RingsOf(table[k := d]) == RingsOf(table)[k := d.ring]
  {
  }

  lemma PacketsChanged(table: seq<JobSlot>, packets: seq<seq<S.Packet>>, k: nat, ps: seq<S.Packet>)
    requires k < |table| == |packets|
    ensures JobsOf(table, packets[k := ps]) == JobsOf(table, packets)[k := JobOf(table[k], ps)]
  {
  }

  lemma EnqueueCopies(s: S.Sock, p: S.Packet, copies: nat)
    requires S.Sound(s) && p.Valid()
    ensures S.Sound(s.(copies := copies))
    ensures S.Enqueue(s.(copies := copies), p) == S.Enqueue(s, p).(copies := copies)
  {
  }

  lemma SameUpdate<T>(s: seq<T>, k: nat)
    requires k < |s|
    ensures s[k := s[k]] == s
  {
  }

  lemma SlotsAdded(table: seq<JobSlot>, packets: seq<seq<S.Packet>>)
    requires |table| == |packets|
    ensures JobsOf(table + [UNUSED, UNUSED], packets + [[], []]) == JobsOf(table, packets) + [S.FRESH_JOB, S.FRESH_JOB]
    ensures RingsOf(table + [UNUSED, UNUSED]) == RingsOf(table) + [null, null]
  {
  }

  lemma SlotsMoved(table: seq<JobSlot>, packets: seq<seq<S.Packet>>, k: nat)
    requires k < |table| == |packets|
    ensures JobsOf(Moved(table, k), Moved(packets, k)) == Moved(JobsOf(table, packets), k)
    ensures RingsOf(Moved(table, k)) == Moved(RingsOf(table), k)
  {
  }

  class Socket {
    const world: World
    const jobs: JobList
    var state: S.State
    var wouldBlock: bool
    var limitMb: nat
    var buffered: int
    /** The packets queued in each job, in list order, and the objects that hold them. */
    ghost var packets: seq<seq<S.Packet>>
    ghost var ringRepr: set<object>

    ghost predicate Valid()
      reads this, jobs, jobs.Repr, ringRepr
    {
      && {this, world} !! jobs.Repr && {this, world} + jobs.Repr !! ringRepr
      && jobs.Valid()
      && |packets| == |jobs.table|
      && RingsOk(RingsOf(jobs.table), packets, ringRepr)
    }

    /** The objects that make up the job list and the packet rings. */
    ghost function Footprint(): set<object>
      reads this, jobs
    {
      jobs.Repr + ringRepr
    }

    /** The value that the transitions of Stream are about. */
    ghost function Abs(): S.Sock
      reads this, world, jobs, jobs.Repr, ringRepr
      requires Valid()
    {
      S.Sock(world.kernel, state, wouldBlock, JobsOf(jobs.table, packets), jobs.Cur(), limitMb, buffered,
             world.total, world.copies, world.released, world.reclaims)
    }

    /** APE_socket_new */
    constructor (world: World, state: S.State, limitMb: nat)
      ensures Valid() && fresh(jobs) && fresh(jobs.Repr) && fresh(ringRepr) && this.world == world
      ensures Abs() == S.Sock(world.kernel, state, false, [S.FRESH_JOB, S.FRESH_JOB], 0, limitMb, 0,
                              world.total, world.copies, world.released, world.reclaims)
    {
      this.world := world;
      jobs := new JobList();
      this.state := state;
      wouldBlock := false;
      this.limitMb := limitMb;
      buffered := 0;
      packets := [[], []];
      ringRepr := {};
    }

    /** current->flags |= ACTIVE | kind */
    method Activate(kind: S.JobType)
      requires Valid()
      modifies jobs.Repr
      ensures Valid() && jobs.Repr == old(jobs.Repr)
      ensures Abs() == old(Abs()).(
        jobs := old(Abs()).jobs[jobs.Cur() := S.Activated(old(Abs()).jobs[jobs.Cur()], kind)])
    {
      var d := jobs.Current();
      var e := match kind
        case WriteJob => d.(active := true, writev := true)
        case ShutdownJob => d.(active := true, shutdown := true);
      ghost var rings := RingsOf(jobs.table);
      SlotChanged(jobs.table, packets, jobs.Cur(), e);
      SameUpdate(rings, jobs.Cur());
      jobs.SetCurrent(e);
    }

    /** ape_socket_job_get_slot: the slot is `current` afterwards. */
    method GetSlot(kind: S.JobType)
      requires Valid() && S.Sound(Abs())
      modifies this`packets, jobs.Repr
      ensures Valid() && fresh(jobs.Repr - old(jobs.Repr))
      ensures Abs() == S.GetSlot(old(Abs()), kind)
    {
      hide RingsOk, JobList.Valid, S.Sound, S.Activated;
      var d := jobs.Current();
      ghost var s := Abs();
      assert s.jobs[s.cur] == JobOf(d, packets[s.cur]);
      if (kind == S.WriteJob && d.writev) || !d.active {
        Activate(kind);
        return;
      }
      NextSlot();
      Activate(kind);
    }

    method NextSlot()
      requires Valid()
      modifies this`packets, jobs.Repr
      ensures Valid() && fresh(jobs.Repr - old(jobs.Repr))
      ensures Abs() == old(Abs()).(jobs := S.Room(old(Abs()).jobs, old(jobs.Cur())), cur := old(jobs.Cur()) + 1)
    {
      SlotsAdded(jobs.table, packets);
      RingsMore(RingsOf(jobs.table), packets, ringRepr);
      jobs.Next();
      packets := if |jobs.table| > |packets| then packets + [[], []] else packets;
    }
  
    /** list = ape_socket_new_packet_queue(8), for the job in `current` */
    method AttachRing()
      requires Valid() && jobs.table[jobs.Cur()].ring == null
      modifies this`ringRepr, jobs.Repr
      ensures Valid() && jobs.Repr == old(jobs.Repr) && fresh(ringRepr - old(ringRepr))
      ensures Abs() == old(Abs()) && jobs.table[jobs.Cur()].ring != null
    {
      var r := new PacketRing();
      SetRing(r);
    }

    /** job->pool.ptr.data = list, for the job in `current` */
    method SetRing(r: PacketRing)
      requires Valid() && jobs.table[jobs.Cur()].ring == null
      requires r.Valid() && r.contents == [] && r.Repr !! ringRepr + {this, world} + jobs.Repr
      modifies this`ringRepr, jobs.Repr
      ensures Valid() && jobs.Repr == old(jobs.Repr) && ringRepr == old(ringRepr) + r.Repr
      ensures Abs() == old(Abs()) && jobs.table[jobs.Cur()].ring != null
    {
      ghost var k, rings := jobs.Cur(), RingsOf(jobs.table);
      var d := jobs.Current();
      assert RingAt(rings, packets, ringRepr, k);
      RingsAttach(rings, packets, ringRepr, k, r);
      SlotChanged(jobs.table, packets, k, d.(ring := r));
      SameUpdate(JobsOf(jobs.table, packets), k);
      ringRepr := ringRepr + r.Repr;
      jobs.SetCurrent(d.(ring := r));
    }

    /** Adds a packet to the ring of the job in `current`. */
    method AddPacket(p: S.Packet)
      requires Valid() && jobs.table[jobs.Cur()].ring != null
      modifies this`packets, this`ringRepr, ringRepr
      ensures Valid() && jobs.Repr == old(jobs.Repr) && fresh(ringRepr - old(ringRepr))
      ensures Abs() == old(Abs()).(jobs := S.Append(old(Abs()).jobs, jobs.Cur(), p))
    {
      ghost var k, rings := jobs.Cur(), RingsOf(jobs.table);
      var d := jobs.Current();
      assert RingAt(rings, packets, ringRepr, k);
      PacketsChanged(jobs.table, packets, k, packets[k] + [p]);
      ringRepr := AddTo(d.ring, p, rings, packets, ringRepr, k);
      packets := packets[k := packets[k] + [p]];
    }

    /** The part of ape_socket_queue_data that finds the list and stores the packet. */
    method Enqueue(p: S.Packet)
      requires Valid() && S.Sound(Abs()) && p.Valid()
      modifies this`packets, this`ringRepr, Footprint()
      ensures Valid() && fresh(Footprint() - old(Footprint()))
      ensures Abs() == S.Enqueue(old(Abs()), p)
    {
      hide RingsOk, JobList.Valid, S.GetSlot;
      GetSlot(S.WriteJob);
      var d := jobs.Current();
      if d.ring == null {
        AttachRing();
      }
      assert fresh(ringRepr - old(ringRepr));
      AddPacket(p);
    }

    /** ape_shutdown, for a client */
    method ApeShutdown()
      requires Valid()
      modifies this`state, world`kernel, world`reclaims
      ensures Valid() && Abs() == S.ApeShutdown(old(Abs()))
    {
      if state != S.Online {
        return;
      }
      world.kernel := world.kernel.(shut := true);
      state := S.Shutdown;
      world.reclaims := world.reclaims + 1;
    }

    /** ape_socket_destroy */
    method Destroy()
      requires Valid()
      modifies this`state, world`reclaims
      ensures Valid() && Abs() == S.Destroy(old(Abs()))
    {
      if state == S.Offline {
        return;
      }
      state := S.Offline;
      world.reclaims := world.reclaims + 1;
    }

    /** APE_socket_shutdown_now */
    method ShutdownNow()
      requires Valid()
      modifies this`state, world`kernel, world`reclaims
      ensures Valid() && Abs() == S.ShutdownNow(old(Abs()))
    {
      if state == S.Shutdown {
        return;
      }
      if state == S.Progress || state == S.Pending {
        Destroy();
        return;
      }
      if state != S.Online {
        return;
      }
      ApeShutdown();
    }

    /** APE_socket_shutdown */
    method ShutdownQueued()
      requires Valid() && S.Sound(Abs())
      modifies this`state, this`packets, world`kernel, world`reclaims, jobs.Repr
      ensures Valid() && fresh(Footprint() - old(Footprint()))
      ensures Abs() == S.ShutdownQueued(old(Abs()))
    {
      if state == S.Shutdown {
        return;
      }
      if state == S.Progress || state == S.Pending {
        Destroy();
        return;
      }
      if state != S.Online {
        return;
      }
      var head := jobs.Head();
      assert Abs().jobs[0].active == head.active;
      if wouldBlock || head.active {
        GetSlot(S.ShutdownJob);
        return;
      }
      ApeShutdown();
    }

    /** The packet to queue; scoped data is copied. */
    method MakePacket(buf: S.Buf, len: nat, offset: nat, life: S.Lifetime) returns (p: S.Packet)
      requires offset < len <= |buf.mem|
      modifies world`copies
      ensures p == S.NewPacket(buf, len, offset, life, old(world.copies))
      ensures world.copies == if S.Copying(life) then old(world.copies) + 1 else old(world.copies)
    {
      if life == S.Static || life == S.Copy {
        p := S.Packet(S.Buf(S.Copied(world.copies), buf.mem[..len]), len, offset, S.Copy);
        world.copies := world.copies + 1;
      } else {
        p := S.Packet(buf, len, offset, life);
      }
    }

    /** ape_socket_queue_data up to the test of the limit */
    method Store(buf: S.Buf, len: nat, offset: nat, life: S.Lifetime)
      requires Valid() && S.Sound(Abs()) && offset < len <= |buf.mem|
      modifies this`packets, this`ringRepr, this`buffered, world`copies, world`total, Footprint()
      ensures Valid() && fresh(Footprint() - old(Footprint()))
      ensures Abs() == S.Queued(old(Abs()), buf, len, offset, life)
    {
      hide RingsOk, JobList.Valid, S.GetSlot;
      var p := MakePacket(buf, len, offset, life);
      EnqueueCopies(old(Abs()), p, world.copies);
      assert Abs() == old(Abs()).(copies := world.copies);
      Enqueue(p);
      assert fresh(Footprint() - old(Footprint()));
      Account(len - offset);
    }

    /** n more bytes are in memory. */
    method Account(n: int)
      requires Valid()
      modifies this`buffered, world`total
      ensures Valid() && Abs() == old(Abs()).(buffered := old(buffered) + n, total := old(world.total) + n)
    {
      buffered := buffered + n;
      world.total := world.total + n;
    }

    /** ape_socket_queue_data */
    method QueueData(buf: S.Buf, len: nat, offset: nat, life: S.Lifetime)
      requires Valid() && S.Sound(Abs()) && offset < len <= |buf.mem|
      modifies this, world, Footprint()
      ensures Valid() && fresh(Footprint() - old(Footprint()))
      ensures Abs() == S.QueueData(old(Abs()), buf, len, offset, life)
    {
      hide RingsOk, JobList.Valid, S.Queued;
      Store(buf, len, offset, life);
      if limitMb != 0 && buffered > (limitMb * S.MB) % S.SIZE_T {
        ShutdownNow();
      }
    }

    /** The loop of APE_socket_write. r_bytes stays at len whatever has been written: ape_min(n, 0) is
        0 for every n >= 0. */
    method SendDirectly(buf: S.Buf, len: nat) returns (tBytes: nat, out: S.Outcome)
      requires len <= |buf.mem|
      modifies world`kernel
      ensures (world.kernel, tBytes, out) == S.WriteLoop(old(world.kernel), buf.mem, len, 0)
    {
      tBytes := 0;
      var rBytes := len;
      while tBytes < len
        invariant tBytes <= |buf.mem| && rBytes == len
        invariant S.WriteLoop(world.kernel, buf.mem, len, tBytes) == S.WriteLoop(old(world.kernel), buf.mem, len, 0)
        decreases |world.kernel.script|
      {
        ghost var k := world.kernel;
        var n := world.Send(buf.mem[tBytes..tBytes + Min(rBytes, |buf.mem| - tBytes)]);
        match n
        case Refused => return tBytes, S.WouldBlock;
        case Interrupted => return tBytes, S.IoError;
        case Broken => return tBytes, S.IoError;
        case Sent(n) =>
          assert buf.mem[tBytes..tBytes + Min(rBytes, |buf.mem| - tBytes)][..n] == buf.mem[tBytes..tBytes + n];
          tBytes := tBytes + n;
      }
      out := S.Done;
    }

    /** APE_socket_write */
    method Write(buf: S.Buf, len: nat, life: S.Lifetime) returns (ret: int)
      requires Valid() && S.Sound(Abs()) && len <= |buf.mem|
      modifies this, world, Footprint()
      ensures Valid() && fresh(Footprint() - old(Footprint()))
      ensures (Abs(), ret) == S.Write(old(Abs()), buf, len, life)
    {
      hide RingsOk, JobList.Valid, S.QueueData;
      if state != S.Online || len == 0 {
        Release(buf, life);
        return -1;
      }
      var head := jobs.Head();
      assert Abs().jobs[0].active == head.active;
      if wouldBlock || head.active {
        QueueData(buf, len, 0, life);
        return len;
      }
      ret := WriteDirectly(buf, len, life);
    }

    /** The part of APE_socket_write for a socket with nothing to wait for. */
    method WriteDirectly(buf: S.Buf, len: nat, life: S.Lifetime) returns (ret: int)
      requires Valid() && S.Sound(Abs()) && 0 < len <= |buf.mem|
      requires state == S.Online && !Abs().Busy()
      modifies this, world, Footprint()
      ensures Valid() && fresh(Footprint() - old(Footprint()))
      ensures (Abs(), ret) == S.Write(old(Abs()), buf, len, life)
    {
      hide RingsOk, JobList.Valid, S.GetSlot;
      var t, out := SendDirectly(buf, len);
      if out == S.WouldBlock {
        QueueBlocked(buf, len, t, life);
        return len;
      }
      ret := Finish(buf, life, out);
    }

    method QueueBlocked(buf: S.Buf, len: nat, offset: nat, life: S.Lifetime)
      requires Valid() && S.Sound(Abs()) && offset < len <= |buf.mem|
      modifies this, world, Footprint()
      ensures Valid() && fresh(Footprint() - old(Footprint()))
      ensures Abs() == S.QueueData(old(Abs()).(wouldBlock := true), buf, len, offset, life)
    {
      hide RingsOk, JobList.Valid, S.QueueData;
      wouldBlock := true;
      QueueData(buf, len, offset, life);
    }

    method Finish(buf: S.Buf, life: S.Lifetime, out: S.Outcome) returns (ret: int)
      requires Valid()
      modifies this`state, world
      ensures Valid()
      ensures var s := old(Abs()).(released := old(Abs()).released + S.Freed(buf, life));
        (Abs(), ret) == if out == S.IoError then (S.ShutdownNow(s), -1) else (s, 0)
    {
      Release(buf, life);
      if out == S.IoError {
        ShutdownNow();
        return -1;
      }
      ret := 0;
    }

    /** ape_socket_release_data, with COPY read as OWN */
    method Release(buf: S.Buf, life: S.Lifetime)
      requires Valid()
      modifies world`released
      ensures Valid() && Abs() == old(Abs()).(released := old(Abs()).released + S.Freed(buf, life))
    {
      if life == S.Autorelease {
        world.released := world.released + [buf.id];
      } else {
        assert world.released + [] == world.released;
      }
    }

    /** states.flags &= ~APE_SOCKET_WOULD_BLOCK */
    method Unblock()
      requires Valid()
      modifies this`wouldBlock
      ensures Valid() && Abs() == old(Abs()).(wouldBlock := false)
    {
      wouldBlock := false;
    }

    /** states.state = APE_SOCKET_ST_ONLINE */
    method Connected()
      requires Valid()
      modifies this`state
      ensures Valid() && Abs() == old(Abs()).(state := S.Online)
    {
      state := S.Online;
    }

    // ---------- ape_socket_do_jobs ----------

    /** What a writev that took n bytes does to the head job and the byte counts. */
    method TakeHead(n: nat)
      requires Valid() && S.Sound(Abs()) && jobs.table[0].ring != null
      modifies this`packets, this`buffered, world`total, world`released, ringRepr
      ensures Valid() && Footprint() == old(Footprint()) && jobs.table == old(jobs.table)
      ensures Abs() == S.Consumed(old(Abs()), n)
    {
      assert jobs in jobs.Repr && S.Good(packets[0]) by {
        assert Abs().jobs[0].packets == packets[0];
      }
      hide JobList.Valid, S.Advance, RingsOk, S.Sound, S.Good;
      ghost var rings := RingsOf(jobs.table);
      var d := jobs.Head();
      world.total := world.total - n;
      buffered := buffered - n;
      PacketsChanged(jobs.table, packets, 0, S.Advance(packets[0], n).0);
      var freed := ConsumeAt(d.ring, n, rings, packets, ringRepr, 0);
      packets := packets[0 := S.Advance(packets[0], n).0];
      world.released := world.released + freed;
    }

    /** One round from `chunk` on: the packets are gathered, and offered until the call is not
        interrupted. */
    method SendChunk() returns (reply: Reply)
      requires Valid() && S.Sound(Abs()) && jobs.table[0].ring != null && packets[0] != []
      modifies world`kernel
      ensures Valid() && Abs() == old(Abs()).(kernel := world.kernel)
      ensures S.Sound(Abs()) && reply != Interrupted && Answered(old(Abs()), Abs(), reply)
    {
      assert RingAt(RingsOf(jobs.table), packets, ringRepr, 0);
      hide RingsOk, JobList.Valid, S.Consumed, S.Chunk, S.Payload;
      var d := jobs.Head();
      ghost var s := Abs();
      var chunks := d.ring.Gather(S.MAX_CHUNKS);
      ChunkGood(s.jobs[0].packets);
      var data := S.Payload(chunks);
      hide Answered, RewriteReply;
      RewriteAnswered(s);
      reply := world.Rewrite(data);
    }

    /** The WRITEV case of ape_socket_do_jobs. */
    method FlushHead() returns (how: S.Flushed)
      requires Valid() && S.Sound(Abs()) && jobs.table[0].ring != null && packets[0] != []
      modifies this`packets, this`buffered, this`state, this`wouldBlock, world, ringRepr
      ensures Valid() && Footprint() == old(Footprint())
      ensures (Abs(), how) == S.Flush(old(Abs()))
    {
      hide JobList.Valid, RingsOk, S.Consumed;
      ghost var s := Abs();
      var more := true;
      while more
        invariant Valid() && Footprint() == old(Footprint()) && jobs.Repr == old(jobs.Repr)
        invariant S.Sound(Abs()) && jobs.table[0].ring != null && (more <==> packets[0] != [])
        invariant S.Flush(Abs()) == S.Flush(s)
        decreases |world.kernel.script|
      {
        var reply := SendChunk();
        match reply
        case Refused =>
          wouldBlock := true;
          return S.Blocked;
        case Broken =>
          ShutdownNow();
          return S.Failed;
        case Sent(n) =>
          TakeHead(n);
          more := HeadFilled();
      }
      how := S.Finished;
    }

    /** Whether the head packet of the head job is filled. */
    method HeadFilled() returns (b: bool)
      requires Valid() && jobs.table[0].ring != null
      ensures b <==> packets[0] != []
    {
      assert RingAt(RingsOf(jobs.table), packets, ringRepr, 0);
      var d := jobs.Head();
      var c := d.ring.First();
      b := c != None;
    }

    /** job->flags &= ~ACTIVE, and the head moves behind `current`. */
    method Complete()
      requires Valid() && S.Sound(Abs())
      modifies this`packets, jobs.Repr
      ensures Valid() && jobs.Repr == old(jobs.Repr)
      ensures Abs() == S.Complete(old(Abs()))
    {
      hide JobList.Valid, RingsOk, S.Sound;
      Deactivate();
      Rotate();
    }

    method Deactivate()
      requires Valid()
      modifies jobs.Repr
      ensures Valid() && jobs.Repr == old(jobs.Repr)
      ensures Abs() == old(Abs()).(jobs := old(Abs()).jobs[0 := old(Abs()).jobs[0].(active := false)])
    {
      var d := jobs.Head();
      ghost var rings := RingsOf(jobs.table);
      SlotChanged(jobs.table, packets, 0, d.(active := false));
      SameUpdate(rings, 0);
      jobs.SetHead(d.(active := false));
    }

    method Rotate()
      requires Valid()
      modifies this`packets, jobs.Repr
      ensures Valid() && jobs.Repr == old(jobs.Repr)
      ensures Abs() == old(Abs()).(jobs := Moved(old(Abs()).jobs, old(jobs.Cur())))
    {
      SlotsMoved(jobs.table, packets, jobs.Cur());
      RingsMoved(RingsOf(jobs.table), packets, ringRepr, jobs.Cur());
      hide RingsOk;
      jobs.HeadToCurrent();
      packets := Moved(packets, jobs.Cur());
    }

    /** ape_socket_do_jobs */
    method DoJobs() returns (ret: int)
      requires Valid() && S.Sound(Abs()) && Loaded(Abs().jobs)
      modifies this, world, Footprint()
      ensures Valid() && Footprint() == old(Footprint())
      ensures (Abs(), ret) == S.DoJobs(old(Abs()), 0)
    {
      hide JobList.Valid, RingsOk, S.DoJobs, S.Flush, S.Sound, Loaded, S.Complete, S.Active;
      ghost var s := Abs();
      var done: nat := 0;
      var job := jobs.Head();
      while job.active
        invariant Valid() && jobs.Repr == old(jobs.Repr) && ringRepr == old(ringRepr)
        invariant S.Sound(Abs()) && Loaded(Abs().jobs) && job == jobs.table[0]
        invariant S.DoJobs(Abs(), done) == S.DoJobs(s, 0)
        decreases S.Active(Abs().jobs)
      {
        ghost var t := Abs();
        JobStep(t, done);
        if job.writev && !job.shutdown {
          HeadRing();
          var how := FlushHead();
          if how == S.Blocked {
            return 0;
          }
          if how == S.Failed {
            return -1;
          }
        } else if job.shutdown && !job.writev {
          ApeShutdown();
          return -1;
        }
        Complete();
        job := jobs.Head();
        done := done + 1;
      }
      JobsIdle(Abs(), done);
      ret := done;
    }

    /** A job that has something to send has a list. */
    lemma HeadRing()
      requires Valid() && S.Sound(Abs()) && Loaded(Abs().jobs)
      requires var j := Abs().jobs[0]; j.active && j.writev && !j.shutdown
      ensures packets[0] != [] && jobs.table[0].ring != null
    {
      assert Abs().jobs[0].packets == packets[0];
      assert RingAt(RingsOf(jobs.table), packets, ringRepr, 0);
    }
  }

  /** Every job that can be flushed has something to send. */
  ghost predicate Loaded(jobs: seq<S.Job>) {
    forall i :: 0 <= i < |jobs| && jobs[i].active && jobs[i].writev && !jobs[i].shutdown ==> jobs[i].packets != []
  }

  /** One round of the loop of ape_socket_do_jobs. */
  lemma JobStep(s: S.Sock, done: nat)
    requires S.Sound(s) && Loaded(s.jobs) && s.jobs[0].active
    ensures var j := s.jobs[0];
      var (f, how) := if j.writev && !j.shutdown then S.Flush(s) else (s, S.Finished);
      if j.shutdown && !j.writev then S.DoJobs(s, done) == (S.ApeShutdown(s), -1)
      else match how
        case Blocked => S.DoJobs(s, done) == (f, 0)
        case Failed => S.DoJobs(s, done) == (f, -1)
        case Finished =>
          && S.Sound(S.Complete(f)) && S.DoJobs(s, done) == S.DoJobs(S.Complete(f), done + 1)
          && Loaded(S.Complete(f).jobs) && S.Active(S.Complete(f).jobs) < S.Active(s.jobs)
  {
    var j := s.jobs[0];
    if !(j.shutdown && !j.writev) {
      var (f, how) := if j.writev && !j.shutdown then S.Flush(s) else (s, S.Finished);
      if how == S.Finished {
        S.ActiveComplete(f);
        S.ActiveSame(s.jobs, f.jobs);
        LoadedComplete(s, f);
      }
    }
  }

  lemma JobsIdle(s: S.Sock, done: nat)
    requires S.Sound(s) && !s.jobs[0].active
    ensures S.DoJobs(s, done) == (s, done)
  {
  }

  lemma LoadedComplete(s: S.Sock, f: S.Sock)
    requires S.Sound(s) && S.Sound(f) && Loaded(s.jobs) && f.cur == s.cur
    requires f.jobs == s.jobs[0 := s.jobs[0].(packets := f.jobs[0].packets)]
    ensures Loaded(S.Complete(f).jobs)
  {
  }

  lemma RingsMoved(rings: seq<PacketRing?>, packets: seq<seq<S.Packet>>, repr: set<object>, k: nat)
    requires RingsOk(rings, packets, repr) && k < |rings|
    ensures RingsOk(Moved(rings, k), Moved(packets, k), repr)
  {
    var rings', packets' := Moved(rings, k), Moved(packets, k);
    forall i | 0 <= i < |rings|
      ensures RingAt(rings', packets', repr, i)
    {
      assert RingAt(rings, packets, repr, if i < k then i + 1 else if i == k then 0 else i);
    }
    forall i, j | 0 <= i < |rings| && 0 <= j < |rings| && i != j
      ensures RingsApart(rings', repr, i, j)
    {
      assert RingsApart(rings, repr, if i < k then i + 1 else if i == k then 0 else i,
                                     if j < k then j + 1 else if j == k then 0 else j);
    }
  }

  /** Flushing in state s comes to what the reply to a writev calls for, t being the state after it. */
  ghost predicate Answered(s: S.Sock, t: S.Sock, reply: Reply)
    requires S.Sound(s) && S.Sound(t)
  {
    match reply
    case Refused => S.Flush(s) == (t.(wouldBlock := true), S.Blocked)
    case Broken => S.Flush(s) == (S.ShutdownNow(t), S.Failed)
    case Interrupted => |t.kernel.script| < |s.kernel.script| && S.Flush(s) == S.Flush(t)
    case Sent(n) =>
      && S.Good(S.Chunk(t.jobs[0].packets)) && n <= |S.Payload(S.Chunk(t.jobs[0].packets))|
      && |t.kernel.script| < |s.kernel.script|
      && S.Sound(S.Consumed(t, n)) && S.Flush(s) == S.Flush(S.Consumed(t, n))
  }

  /** The packets of the head job, offered once. */
  lemma AnsweredOnce(s: S.Sock)
    requires S.Sound(s) && s.jobs[0].packets != []
    ensures S.Good(S.Chunk(s.jobs[0].packets))
    ensures var (reply, k) := ReplyTo(s.kernel, S.Payload(S.Chunk(s.jobs[0].packets)));
      S.Sound(s.(kernel := k)) && Answered(s, s.(kernel := k), reply)
  {
    ChunkGood(s.jobs[0].packets);
    if s.kernel.script != [] && s.kernel.script[0].Accept? {
      ConsumedSound(s, s.kernel.script[0].n);
    }
  }

  lemma ConsumedSound(s: S.Sock, n: nat)
    requires S.Sound(s) && s.kernel.script != []
    ensures S.Sound(S.Took(s, n))
  {
    var m := Min(n, |S.Payload(S.Chunk(s.jobs[0].packets))|);
    S.AdvanceValid(s.jobs[0].packets, m);
  }

  /** The packets of the head job, offered until the call is not interrupted. */
  lemma {:induction false} RewriteAnswered(s: S.Sock)
    requires S.Sound(s) && s.jobs[0].packets != []
    ensures S.Good(S.Chunk(s.jobs[0].packets))
    ensures var (reply, k) := RewriteReply(s.kernel, S.Payload(S.Chunk(s.jobs[0].packets)));
      reply != Interrupted && S.Sound(s.(kernel := k)) && Answered(s, s.(kernel := k), reply)
    decreases |s.kernel.script|
  {
    AnsweredOnce(s);
    var (reply, k) := ReplyTo(s.kernel, S.Payload(S.Chunk(s.jobs[0].packets)));
    if reply == Interrupted {
      RewriteAnswered(s.(kernel := k));
    }
  }

  lemma ChunkGood(ps: seq<S.Packet>)
    requires S.Good(ps) && ps != []
    ensures S.Chunk(ps) == ps[..Min(S.MAX_CHUNKS, |ps|)]
    ensures S.Good(S.Chunk(ps)) && S.Payload(S.Chunk(ps)) != []
  {
    assert ps[0] in ps && S.Chunk(ps)[0] == ps[0];
  }

  /** Taking n bytes from one ring leaves the others alone. */
  method ConsumeAt(ring: PacketRing, n: nat,
                   ghost rings: seq<PacketRing?>, ghost packets: seq<seq<S.Packet>>,
                    ghost repr: set<object>, ghost k: nat)
    returns (freed: seq<S.BufId>)
    requires RingsOk(rings, packets, repr) && k < |rings| && rings[k] == ring && S.Good(packets[k])
    modifies repr
    ensures RingsOk(rings, packets[k := S.Advance(packets[k], n).0], repr)
    ensures freed == S.Advance(packets[k], n).1
  {
    assert RingAt(rings, packets, repr, k);
    freed := ring.Consume(n);
    ghost var packets' := packets[k := S.Advance(packets[k], n).0];
    forall i | 0 <= i < |rings|
      ensures RingAt(rings, packets', repr, i)
    {
      assert old(RingAt(rings, packets, repr, i)) && (i != k ==> old(RingsApart(rings, repr, i, k)));
    }
    forall i, j | 0 <= i < |rings| && 0 <= j < |rings| && i != j
      ensures RingsApart(rings, repr, i, j)
    {
      assert old(RingAt(rings, packets, repr, i)) && (i != k ==> old(RingsApart(rings, repr, i, k)));
      assert old(RingAt(rings, packets, repr, j)) && (j != k ==> old(RingsApart(rings, repr, j, k)));
      assert old(RingsApart(rings, repr, i, j));
    }
  }

  /** Adding a packet to one ring leaves the others alone. */
  method AddTo(ring: PacketRing, p: S.Packet,
               ghost rings: seq<PacketRing?>, ghost packets: seq<seq<S.Packet>>,
                    ghost repr: set<object>, ghost k: nat)
    returns (ghost repr': set<object>)
    requires RingsOk(rings, packets, repr) && k < |rings| && rings[k] == ring
    modifies repr
    ensures RingsOk(rings, packets[k := packets[k] + [p]], repr') && repr <= repr' && fresh(repr' - repr)
  {
    assert RingAt(rings, packets, repr, k);
    ring.Add(p);
    repr' := repr + ring.Repr;
    ghost var packets' := packets[k := packets[k] + [p]];
    forall i | 0 <= i < |rings|
      ensures RingAt(rings, packets', repr', i)
    {
      assert old(RingAt(rings, packets, repr, i)) && (i != k ==> old(RingsApart(rings, repr, i, k)));
    }
    forall i, j | 0 <= i < |rings| && 0 <= j < |rings| && i != j
      ensures RingsApart(rings, repr', i, j)
    {
      assert old(RingAt(rings, packets, repr, i)) && (i != k ==> old(RingsApart(rings, repr, i, k)));
      assert old(RingAt(rings, packets, repr, j)) && (j != k ==> old(RingsApart(rings, repr, j, k)));
      assert old(RingsApart(rings, repr, i, j));
    }
  }

  lemma RingsAttach(rings: seq<PacketRing?>, packets: seq<seq<S.Packet>>, repr: set<object>, k: nat, r: PacketRing)
    requires RingsOk(rings, packets, repr) && k < |rings| && rings[k] == null
    requires r.Valid() && r.contents == [] && r.Repr !! repr
    ensures RingsOk(rings[k := r], packets, repr + r.Repr)
  {
    var rings' := rings[k := r];
    assert RingAt(rings, packets, repr, k);
    forall i | 0 <= i < |rings'|
      ensures RingAt(rings', packets, repr + r.Repr, i)
    {
      assert RingAt(rings, packets, repr, i);
    }
    forall i, j | 0 <= i < |rings'| && 0 <= j < |rings'| && i != j
      ensures RingsApart(rings', repr + r.Repr, i, j)
    {
      assert RingAt(rings, packets, repr, i) && RingAt(rings, packets, repr, j) && RingsApart(rings, repr, i, j);
    }
  }
}
