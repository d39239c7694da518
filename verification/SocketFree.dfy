/** Disposal of a socket: ape_socket_free with the job and packet cleaners of ape_socket.c. The pass over
    a list hands every payload to the cleaner while its slot is still live; here the payloads are noted
    then and cleaned afterwards, in the same order. */
module SocketDisposal {
  import opened Bytes
  import opened Pools
  import S = Stream
  import opened PacketRings
  import opened JobLists
  import opened Sockets
  import R = StreamRuns
  import T = StreamTraces
  import Theorems = StreamTheorems
  import EventLoops

  /** The cells of a ring from position i on. */
  ghost function CellsOf(contents: seq<S.Packet>, n: nat): (r: seq<Cell>)
    requires |contents| <= n
    ensures |r| == n && forall i :: 0 <= i < n ==> r[i] == if i < |contents| then Some(contents[i]) else None
  {
    seq(n, i requires 0 <= i < n => if i < |contents| then Some(contents[i]) else None)
  }

  /** The WRITEV case of ape_socket_job_pool_cleaner: the ring is destroyed with
      ape_socket_packet_pool_cleaner, which releases what its slots hold. */
  method CleanRing(ring: PacketRing, world: World)
    requires ring.Valid() && S.Good(ring.contents) && world !in ring.Repr
    modifies ring.Repr, world`total, world`released
    ensures world.total == old(world.total) - |S.Payload(old(ring.contents))|
    ensures world.released == old(world.released) + S.OwnedBy(old(ring.contents))
    ensures forall s :: s in old(ring.list.slots) ==> !s.block.live
  {
    ghost var contents, slots := ring.contents, ring.list.slots;
    forall i | 0 <= i < |slots|
      ensures DataOf(slots)[i] == CellsOf(contents, |slots|)[i]
    {
      assert PacketRings.Holds(slots, i, contents);
    }
    assert DataOf(slots) == CellsOf(contents, |slots|);
    var cells, _ := DestroyWithCleaner(ring.list.head, slots);
    ReleaseCells(cells, world, contents);
  }

  /** ape_socket_packet_pool_cleaner on each slot */
  method ReleaseCells(cells: seq<Cell>, world: World, ghost contents: seq<S.Packet>)
    requires |contents| <= |cells| && cells == CellsOf(contents, |cells|) && S.Good(contents)
    modifies world`total, world`released
    ensures world.total == old(world.total) - |S.Payload(contents)|
    ensures world.released == old(world.released) + S.OwnedBy(contents)
  {
    var i := 0;
    assert contents[0..] == contents;
    while i < |cells|
      invariant 0 <= i <= |cells|
      invariant var rest := contents[Min(i, |contents|)..];
        && S.Good(rest)
        && world.total - |S.Payload(rest)| == old(world.total) - |S.Payload(contents)|
        && world.released + S.OwnedBy(rest) == old(world.released) + S.OwnedBy(contents)
    {
      if cells[i] != None {
        var p := cells[i].packet;
        ghost var rest := contents[i..];
        assert rest[0] == p && rest[1..] == contents[i + 1..] && p in contents;
        world.total := world.total - (p.len - p.offset);
        world.released := world.released + p.Owned();
      }
      i := i + 1;
    }
    assert contents[|contents|..] == [];
    assert world.released + [] == world.released;
  }

  /** ape_socket_job_pool_cleaner, for the job in slot k. Only an active WRITEV job has its list
      destroyed; an idle one keeps it, and nothing else refers to it. */
  method CleanJob(d: JobSlot, world: World,
                  ghost rings: seq<PacketRing?>, ghost packets: seq<seq<S.Packet>>,
                   ghost repr: set<object>, ghost k: nat)
    requires k < |rings| == |packets| && rings[k] == d.ring && world !in repr
    requires RingsFrom(rings, packets, repr, k) && S.Good(packets[k])
    requires d.active && d.writev && !d.shutdown ==> d.ring != null
    modifies repr, world`total, world`released
    ensures RingsFrom(rings, packets, repr, k + 1)
    ensures var (n, freed) := S.CleanJobs([JobOf(d, packets[k])]);
      world.total == old(world.total) - n && world.released == old(world.released) + freed
    ensures d.active && d.writev && !d.shutdown ==> forall s :: s in old(d.ring.list.slots) ==> !s.block.live
  {
    assert RingAt(rings, packets, repr, k);
    CleanOne(JobOf(d, packets[k]));
    if d.active {
      if d.writev && !d.shutdown {
        CleanRing(d.ring, world);
      }
    }
    assert world.released + [] == world.released;
    forall i | k + 1 <= i < |rings|
      ensures RingAt(rings, packets, repr, i)
    {
      assert old(RingAt(rings, packets, repr, i)) && old(RingsApart(rings, repr, i, k));
    }
    forall i, j | k + 1 <= i < |rings| && k + 1 <= j < |rings| && i != j
      ensures RingsApart(rings, repr, i, j)
    {
      assert old(RingAt(rings, packets, repr, i)) && old(RingsApart(rings, repr, i, k));
      assert old(RingAt(rings, packets, repr, j)) && old(RingsApart(rings, repr, j, k));
      assert old(RingsApart(rings, repr, i, j));
    }
  }

  /** The rings that have not been cleaned yet. */
  ghost predicate RingsFrom(rings: seq<PacketRing?>, packets: seq<seq<S.Packet>>, repr: set<object>, k: nat)
    requires |rings| == |packets|
    reads repr
  {
    && (forall i :: k <= i < |rings| ==> RingAt(rings, packets, repr, i))
    && (forall i, j :: k <= i < |rings| && k <= j < |rings| && i != j ==> RingsApart(rings, repr, i, j))
  }

  lemma CleanOne(j: S.Job)
    requires S.Good(j.packets)
    ensures S.CleanJobs([j]) ==
      if j.active && j.writev && !j.shutdown then (|S.Payload(j.packets)|, S.OwnedBy(j.packets)) else (0, [])
  {
    assert [j][1..] == [] && S.CleanJobs([]) == (0, []);
    assert S.OwnedBy(j.packets) + [] == S.OwnedBy(j.packets);
  }

  lemma {:induction false} CleanAppend(a: seq<S.Job>, b: seq<S.Job>)
    requires forall j :: j in a + b ==> S.Good(j.packets)
    ensures (forall j :: j in a ==> S.Good(j.packets)) && (forall j :: j in b ==> S.Good(j.packets))
    ensures var x, y := S.CleanJobs(a), S.CleanJobs(b);
      S.CleanJobs(a + b) == (x.0 + y.0, x.1 + y.1)
  {
    assert forall j :: j in a || j in b ==> j in a + b;
    if a == [] {
      assert a + b == b && S.CleanJobs(a) == (0, []) && [] + S.CleanJobs(b).1 == S.CleanJobs(b).1;
    } else {
      assert (a + b)[0] == a[0] && (a + b)[1..] == a[1..] + b;
      assert forall j :: j in (a + b)[1..] ==> j in a + b;
      CleanAppend(a[1..], b);
      var j := a[0];
      assert j in a && S.Good(j.packets);
      var freed := S.CleanJobs(b).1;
      var first, rest := S.OwnedBy(j.packets), S.CleanJobs(a[1..]).1;
      assert first + (rest + freed) == (first + rest) + freed;
    }
  }

  lemma CleanNext(jobs: seq<S.Job>, i: nat)
    requires i < |jobs| && forall j :: j in jobs ==> S.Good(j.packets)
    ensures (forall j :: j in jobs[..i + 1] ==> S.Good(j.packets)) && S.Good(jobs[i].packets)
    ensures var x, y := S.CleanJobs(jobs[..i]), S.CleanJobs([jobs[i]]);
      S.CleanJobs(jobs[..i + 1]) == (x.0 + y.0, x.1 + y.1)
  {
    assert jobs[..i + 1] == jobs[..i] + [jobs[i]];
    assert forall j :: j in jobs[..i + 1] ==> j in jobs;
    CleanAppend(jobs[..i], [jobs[i]]);
  }

  /** The cleaners, over all slots of the job list in order. */
  method CleanAllJobs(cleaned: seq<JobSlot>, world: World,
                      ghost rings: seq<PacketRing?>, ghost packets: seq<seq<S.Packet>>, ghost repr: set<object>)
    requires |cleaned| == |packets| && rings == RingsOf(cleaned) && world !in repr
    requires RingsOk(rings, packets, repr)
    requires var jobs := JobsOf(cleaned, packets);
      (forall j :: j in jobs ==> S.Good(j.packets)) && Loaded(jobs)
    modifies repr, world`total, world`released
    ensures var (n, freed) := S.CleanJobs(JobsOf(cleaned, packets));
      world.total == old(world.total) - n && world.released == old(world.released) + freed
  {
    ghost var jobs := JobsOf(cleaned, packets);
    var i := 0;
    assert jobs[..0] == [];
    while i < |cleaned|
      invariant 0 <= i <= |cleaned|
      invariant forall j :: j in jobs[..i] ==> S.Good(j.packets)
      invariant RingsFrom(rings, packets, repr, i)
      invariant var (n, freed) := S.CleanJobs(jobs[..i]);
        world.total == old(world.total) - n && world.released == old(world.released) + freed
    {
      CleanNext(jobs, i);
      assert jobs[i] == JobOf(cleaned[i], packets[i]) && RingAt(rings, packets, repr, i);
      CleanJob(cleaned[i], world, rings, packets, repr, i);
      i := i + 1;
    }
    assert jobs[..i] == jobs;
  }

  /** ape_socket_free: the job list and the rings of the active WRITEV jobs are destroyed, and the
      buffers and byte counts end up as the transition says. */
  method Free(socket: Socket)
    requires socket.Valid() && S.Sound(socket.Abs()) && Loaded(socket.Abs().jobs)
    modifies socket.world`total, socket.world`released, socket.Footprint()
    ensures var r := S.Free(old(socket.Abs()));
      socket.world.total == r.total && socket.world.released == r.released
    ensures forall s :: s in old(socket.jobs.list.slots) ==> !s.block.live
  {
    var world, list := socket.world, socket.jobs.list;
    ghost var table, packets, repr := socket.jobs.table, socket.packets, socket.ringRepr;
    TableData(socket.jobs);
    assert socket.jobs in socket.jobs.Repr && socket !in socket.jobs.Repr;
    ghost var slots, own := list.slots, socket.jobs.Repr;
    forall s | s in slots
      ensures s.block in own
    {
      assert s in SetOf(slots) && HeadIn(s, SetOf(slots));
    }
    var cleaned, _ := DestroyWithCleaner(list.head, slots);
    CleanAllJobs(cleaned, world, RingsOf(table), packets, repr);
  }

  /** A new socket is taken through a scenario and then disposed of: every buffer that it had to free
      has been freed once, no other has, and the global count is what it was before. */
  method PlayAndFree(x: T.Scenario) returns (world: World)
    requires x.Valid()
    ensures multiset(world.released) == T.DueIn(x.Trace()) && world.total == x.others
  {
    var socket := EventLoops.PlayOut(x);
    world := socket.world;
    EndLoaded(x);
    Theorems.Ownership(x);
    hide Socket.Valid, Socket.Abs, Socket.Footprint;
    Free(socket);
  }

  lemma EndLoaded(x: T.Scenario)
    requires x.Valid()
    ensures Loaded(x.End().jobs)
  {
    T.Summary(x);
  }

  lemma TableData(jobs: JobList)
    requires jobs.Valid()
    ensures DataOf(jobs.list.slots) == jobs.table
  {
    forall i | 0 <= i < |jobs.table|
      ensures DataOf(jobs.list.slots)[i] == jobs.table[i]
    {
      assert JobLists.Shows(jobs.list.slots, i, jobs.table);
    }
  }
}
