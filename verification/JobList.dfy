/** The job list of a socket: an ape_pool_list_t of ape_socket_jobs_t. */
module JobLists {
  import opened Pools
  import opened PacketRings

  /** ape_socket_jobs_t: the flag bits, and ptr.data */
  datatype JobSlot = JobSlot(writev: bool, shutdown: bool, active: bool, ring: PacketRing?)

  const UNUSED := JobSlot(false, false, false, null)

  class JobList {
    var list: PoolList<JobSlot>
    /** What the slots hold, in list order. */
    ghost var table: seq<JobSlot>
    ghost var Repr: set<object>

    ghost predicate Valid()
      reads this, Repr
    {
      && this in Repr && list in Repr
      && (forall i :: 0 <= i < |list.slots| ==> list.slots[i] in Repr)
      && list.Valid()
      && |table| == |list.slots|
      && (forall i :: 0 <= i < |table| ==> Shows(list.slots, i, table))
    }

    /** The position of `current`. */
    ghost function Cur(): nat
      reads this, Repr
      requires Valid()
      ensures Cur() < |table|
    {
      list.cur
    }

    /** ape_init_job_list(list, 2) */
    constructor ()
      ensures Valid() && fresh(Repr) && table == [UNUSED, UNUSED] && Cur() == 0
    {
      var l := new PoolList<JobSlot>(2, UNUSED);
      list := l;
      table := [UNUSED, UNUSED];
      Repr := {this, l} + SetOf(l.slots);
      new;
      assert forall i :: 0 <= i < 2 ==> list.slots[i] in SetOf(list.slots);
    }

    method Head() returns (d: JobSlot)
      requires Valid()
      ensures d == table[0]
    {
      assert Shows(list.slots, 0, table);
      d := list.head.data;
    }

    method SetHead(d: JobSlot)
      requires Valid()
      modifies Repr
      ensures Valid() && Repr == old(Repr) && Cur() == old(Cur()) && table == old(table)[0 := d]
    {
      Put(list.head, 0, d);
    }

    method Current() returns (d: JobSlot)
      requires Valid()
      ensures d == table[Cur()]
    {
      assert Shows(list.slots, list.cur, table);
      d := list.current.data;
    }

    method SetCurrent(d: JobSlot)
      requires Valid()
      modifies Repr
      ensures Valid() && Repr == old(Repr) && Cur() == old(Cur()) && table == old(table)[Cur() := d]
    {
      Put(list.current, list.cur, d);
    }

    method Put(slot: Slot<JobSlot>, ghost at: nat, d: JobSlot)
      requires Valid() && at < |table| && slot == list.slots[at]
      modifies this`table, slot`data
      ensures Valid() && Cur() == old(Cur()) && table == old(table)[at := d]
    {
      ghost var s := list.slots;
      Apart(s, at);
      slot.data := d;
      table := table[at := d];
      forall i | 0 <= i < |s|
        ensures Shows(s, i, table)
      {
        assert old(Shows(s, i, table));
      }
    }

    /** Steps `current` to the next slot; behind the last one the list grows by 2 slots. */
    method Next()
      requires Valid()
      modifies Repr
      ensures Valid() && fresh(Repr - old(Repr)) && Cur() == old(Cur()) + 1
      ensures table == if Cur() < |old(table)| then old(table) else old(table) + [UNUSED, UNUSED]
    {
      if list.current == list.queue {
        Apart(list.slots, list.cur);
        Grow();
      } else {
        Apart(list.slots, |list.slots| - 1);
        list.Advance();
      }
    }

    method Grow()
      requires Valid() && Cur() + 1 == |table|
      modifies Repr
      ensures Valid() && fresh(Repr - old(Repr)) && Cur() == old(Cur()) + 1
      ensures table == old(table) + [UNUSED, UNUSED]
    {
      ghost var s := list.slots;
      var pool, run := list.Grow(2, UNUSED);
      list.current := pool;
      list.cur := list.cur + 1;
      table := table + [UNUSED, UNUSED];
      Repr := Repr + SetOf(run);
      forall i | 0 <= i < |table|
        ensures list.slots[i] in Repr && Shows(list.slots, i, table)
      {
        if i < |s| {
          assert list.slots[i] == s[i] && old(Shows(s, i, table));
        } else {
          assert list.slots[i] in SetOf(run);
        }
      }
    }

    /** ape_pool_head_to_current */
    method HeadToCurrent()
      requires Valid()
      modifies Repr
      ensures Valid() && Repr == old(Repr) && Cur() == old(Cur()) && table == Moved(old(table), Cur())
    {
      ghost var s, k := list.slots, list.cur;
      list.HeadToCurrent();
      table := Moved(table, k);
      forall i | 0 <= i < |s|
        ensures list.slots[i] in Repr && Shows(list.slots, i, table)
      {
        var j := if i < k then i + 1 else if i == k then 0 else i;
        assert list.slots[i] == s[j] && old(Shows(s, j, table));
      }
    }
  }

  ghost predicate Shows(slots: seq<Slot<JobSlot>>, i: nat, table: seq<JobSlot>)
    requires i < |slots| == |table|
    reads slots[i]
  {
    slots[i].data == table[i]
  }
}
