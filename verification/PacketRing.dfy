/** The list of packets of one WRITEV job: an ape_pool_list_t whose slots from the head up to
    `current` are filled and are used as a FIFO queue. */
module PacketRings {
  import opened Bytes
  import opened Pools
  import opened Stream

  /** A packet slot: None when its ptr.data is NULL. */
  datatype Cell = None | Some(packet: Packet)

  class PacketRing {
    var list: PoolList<Cell>
    /** The queued packets, first one first. */
    ghost var contents: seq<Packet>
    ghost var Repr: set<object>

    /** The filled slots are exactly those before `current`, which is therefore always a spare one. */
    ghost predicate Valid()
      reads this, Repr
    {
      && this in Repr && list in Repr
      && (forall i :: 0 <= i < |list.slots| ==> list.slots[i] in Repr)
      && list.Valid()
      && list.cur == |contents|
      && (forall i :: 0 <= i < |list.slots| ==> Holds(list.slots, i, contents))
    }

    /** ape_socket_new_packet_queue(8) */
    constructor ()
      ensures Valid() && fresh(Repr) && contents == []
    {
      var l := new PoolList<Cell>(8, None);
      list := l;
      contents := [];
      Repr := {this, l} + SetOf(l.slots);
      new;
      assert forall i :: 0 <= i < |list.slots| ==> list.slots[i] in SetOf(list.slots);
    }

    /** The part of ape_socket_queue_data that stores the packet: it fills `current`, steps to the next
        slot, and grows the list by 8 slots when there is none, so that there always is a spare slot. */
    method Add(p: Packet)
      requires Valid()
      modifies Repr
      ensures Valid() && fresh(Repr - old(Repr)) && contents == old(contents) + [p]
    {
      ghost var s, n := list.slots, list.cur;
      Apart(s, n);
      assert forall i :: 0 <= i < |s| ==> Holds(s, i, contents);
      var run := list.Push(Some(p), None);
      contents := contents + [p];
      Repr := Repr + SetOf(run);
      forall i | 0 <= i < |list.slots|
        ensures list.slots[i] in Repr && Holds(list.slots, i, contents)
      {
        if i < |s| {
          assert list.slots[i] == s[i] && old(Holds(s, i, contents));
        } else {
          assert list.slots[i] in SetOf(run);
        }
      }
    }

    /** The filled packet at the head, if there is one. */
    method First() returns (c: Cell)
      requires Valid()
      ensures c == if contents == [] then None else Some(contents[0])
    {
      assert Holds(list.slots, 0, contents);
      c := list.head.data;
    }

    /** packet->pool.ptr.data = NULL, and the slot goes to the tail of the list. */
    method Pop()
      requires Valid() && contents != []
      modifies Repr
      ensures Valid() && Repr == old(Repr) && contents == old(contents)[1..]
    {
      ghost var s := list.slots;
      Apart(s, 0);
      list.head.data := None;
      list.HeadToQueue();
      contents := contents[1..];
      forall i | 0 <= i < |s|
        ensures list.slots[i] in Repr && Holds(list.slots, i, contents)
      {
        assert old(Holds(s, if i + 1 < |s| then i + 1 else 0, contents));
        assert list.slots[i] == s[if i + 1 < |s| then i + 1 else 0];
      }
    }

    /** packet->offset = offset, for the packet at the head. */
    method SetOffset(offset: nat)
      requires Valid() && contents != []
      modifies Repr
      ensures Valid() && Repr == old(Repr)
      ensures contents == [old(contents)[0].(offset := offset)] + old(contents)[1..]
    {
      ghost var s := list.slots;
      Apart(s, 0);
      assert Holds(s, 0, contents);
      list.head.data := Some(list.head.data.packet.(offset := offset));
      contents := [contents[0].(offset := offset)] + contents[1..];
      forall i | 0 <= i < |s|
        ensures Holds(s, i, contents)
      {
        assert old(Holds(s, i, contents));
      }
    }

    /** The loop that fills the iovec: the filled packets from the head on, at most max of them. */
    method Gather(max: nat) returns (chunks: seq<Packet>)
      requires Valid()
      ensures chunks == contents[..Min(max, |contents|)]
    {
      chunks := [];
      var packet: Slot?<Cell> := list.head;
      var i := 0;
      while packet != null && i < max
        invariant 0 <= i <= |contents| && i <= max && chunks == contents[..i]
        invariant packet == list.slots[i]
      {
        assert Holds(list.slots, i, contents);
        if packet.data == None {
          break;
        }
        chunks := chunks + [packet.data.packet];
        assert packet.next == NextsOf(list.slots)[i];
        packet := packet.next;
        i := i + 1;
      }
    }

    /** The loop after a writev that took n bytes: finished packets are released and leave the list,
        and the offset of the first unfinished one moves on. */
    method Consume(n: nat) returns (freed: seq<BufId>)
      requires Valid() && Good(contents)
      modifies Repr
      ensures Valid() && Repr == old(Repr)
      ensures (contents, freed) == Advance(old(contents), n)
    {
      var left: int := n;
      freed := [];
      ghost var all := contents;
      var packet := First();
      while packet != None
        invariant Valid() && Repr == old(Repr) && Good(contents) && left >= 0
        invariant packet == if contents == [] then None else Some(contents[0])
        invariant Advance(all, n).0 == Advance(contents, left).0
        invariant Advance(all, n).1 == freed + Advance(contents, left).1
        decreases |contents|
      {
        var p := packet.packet;
        GoodTail(contents);
        left := left - (p.len - p.offset);
        if left < 0 {
          SetOffset(p.len + left);
          assert freed + [] == freed;
          return;
        }
        ghost var tail := contents[1..];
        freed := freed + p.Owned();
        Pop();
        packet := First();
        if left == 0 {
          AdvanceNone(tail);
          assert freed + [] == freed;
          return;
        }
      }
      assert freed + [] == freed;
    }
  }

  lemma GoodTail(ps: seq<Packet>)
    requires Good(ps) && ps != []
    ensures ps[0].Valid() && Good(ps[1..])
  {
    assert ps[0] in ps;
  }

  lemma AdvanceNone(ps: seq<Packet>)
    requires Good(ps)
    ensures Advance(ps, 0) == (ps, [])
  {
    if ps != [] {
      assert ps[0] in ps && ps[0].(offset := ps[0].offset + 0) == ps[0];
      assert [ps[0]] + ps[1..] == ps;
    }
  }

  ghost predicate Holds(slots: seq<Slot<Cell>>, i: nat, contents: seq<Packet>)
    requires i < |slots|
    reads slots[i]
  {
    slots[i].data == if i < |contents| then Some(contents[i]) else None
  }
}
