/** The slot pools of ape_pool.c: singly linked slots, allocated a block at a time, rotated in
    place and finally destroyed by a pass that rethreads the list. */
module Pools {

  /** A slot. A block is one malloc'ed run of slots; it is named by its first slot, the only one
      whose address may be handed to free. */
  class Slot<T> {
    var data: T
    var next: Slot?<T>
    /** The block this slot belongs to, named by the block's first slot. */
    const block: Slot<T>
    /** Meaningful for the first slot of a block: the block has not been freed. */
    var live: bool

    constructor First(data: T)
      ensures this.data == data && next == null && block == this && live
    {
      this.data := data;
      next := null;
      block := this;
      live := true;
    }

    constructor Member(data: T, block: Slot<T>)
      ensures this.data == data && next == null && this.block == block
    {
      this.data := data;
      next := null;
      this.block := block;
      live := true;
    }

    /** It is the first slot of its block. */
    ghost predicate Alloc() {
      block == this
    }

    // Every access below demands that the slot's memory has not been freed.

    /** APE_POOL_ALLOC */
    predicate IsAlloc()
      requires block.live
      reads block
      ensures IsAlloc() <==> Alloc()
    {
      block == this
    }

    function Next(): Slot?<T>
      requires block.live
      reads this, block
    {
      next
    }

    function Data(): T
      requires block.live
      reads this, block
    {
      data
    }

    method Free()
      requires Alloc() && live
      modifies this`live
      ensures !live
    {
      live := false;
    }
  }

  ghost function SetOf<T>(s: seq<T>): set<T> {
    set x | x in s
  }

  /** No element occurs twice. */
  ghost predicate NoDup<T>(s: seq<T>) {
    |SetOf(s)| == |s|
  }

  lemma SetOfSnoc<T>(s: seq<T>, x: T)
    ensures SetOf(s + [x]) == SetOf(s) + {x}
    ensures |SetOf(s)| <= |s|
    ensures NoDup(s + [x]) <==> NoDup(s) && x !in s
    decreases |s|
  {
    assert SetOf(s + [x]) == SetOf(s) + {x} && (x in SetOf(s) <==> x in s);
    if s != [] {
      var k := |s| - 1;
      assert s == s[..k] + [s[k]];
      SetOfSnoc(s[..k], s[k]);
    }
  }

  /** What NoDup means position by position. */
  lemma {:induction false} NoDupDistinct<T>(s: seq<T>)
    ensures NoDup(s) <==> forall i, j :: 0 <= i < j < |s| ==> s[i] != s[j]
  {
    if s != [] {
      var k := |s| - 1;
      assert s == s[..k] + [s[k]];
      SetOfSnoc(s[..k], s[k]);
      NoDupDistinct(s[..k]);
      if NoDup(s) {
        forall i, j | 0 <= i < j < |s|
          ensures s[i] != s[j]
        {
          assert s[i] == s[..k][i] && s[..k][i] in s[..k];
          assert j < k ==> s[j] == s[..k][j];
        }
      } else if s[k] in s[..k] {
        var i :| 0 <= i < k && s[..k][i] == s[k];
        assert s[i] == s[k];
      } else {
        var i, j :| 0 <= i < j < k && s[..k][i] == s[..k][j];
        assert s[i] == s[j];
      }
    }
  }

  lemma Apart<T>(s: seq<T>, i: nat)
    requires NoDup(s) && i < |s|
    ensures forall j :: 0 <= j < |s| && j != i ==> s[j] != s[i]
  {
    NoDupDistinct(s);
  }

  lemma NoDupCons<T>(x: T, s: seq<T>)
    ensures SetOf([x] + s) == {x} + SetOf(s)
    ensures NoDup([x] + s) <==> NoDup(s) && x !in s
  {
    assert SetOf([x] + s) == {x} + SetOf(s) && (x in SetOf(s) <==> x in s);
    if s != [] {
      SetOfSnoc(s[..|s| - 1], s[|s| - 1]);
      assert s == s[..|s| - 1] + [s[|s| - 1]];
    }
  }

  lemma NoDupAppend<T>(a: seq<T>, b: seq<T>)
    requires NoDup(a) && NoDup(b) && SetOf(a) !! SetOf(b)
    ensures SetOf(a + b) == SetOf(a) + SetOf(b) && NoDup(a + b)
  {
    assert SetOf(a + b) == SetOf(a) + SetOf(b);
  }

  lemma TakeSnoc<T>(s: seq<T>, i: nat)
    requires i < |s|
    ensures s[..i + 1] == s[..i] + [s[i]]
  {
  }

  lemma DropCons<T>(s: seq<T>, i: nat)
    requires i < |s|
    ensures s[i..] == [s[i]] + s[i + 1..] && s[i..][1..] == s[i + 1..]
  {
  }

  /** s with its first element moved behind the k elements that follow it. */
  function Moved<T>(s: seq<T>, k: nat): (t: seq<T>)
    requires k < |s|
    ensures |t| == |s|
    ensures forall i {:trigger t[i]} :: 0 <= i < |s| ==>
      t[i] == if i < k then s[i + 1] else if i == k then s[0] else s[i]
  {
    s[1..k + 1] + [s[0]] + s[k + 1..]
  }

  lemma MovedParts<T>(s: seq<T>, k: nat)
    requires k < |s|
    ensures Moved(s, k) == s[1..k + 1] + ([s[0]] + s[k + 1..])
    ensures s[1..] == s[1..k + 1] + s[k + 1..]
  {
  }

  lemma MovedNone<T>(s: seq<T>)
    requires s != []
    ensures Moved(s, 0) == s
  {
  }

  lemma MovedKeeps<T>(s: seq<T>, k: nat)
    requires k < |s|
    ensures SetOf(Moved(s, k)) == SetOf(s)
    ensures NoDup(s) ==> NoDup(Moved(s, k))
  {
    var t := Moved(s, k);
    forall x | x in s
      ensures x in t
    {
      var i :| 0 <= i < |s| && s[i] == x;
      assert t[if i == 0 then k else if i <= k then i - 1 else i] == x;
    }
  }

  /** The payloads of a run of slots, in order. */
  ghost function DataOf<T>(slots: seq<Slot<T>>): (r: seq<T>)
    reads slots
    ensures |r| == |slots| && forall i :: 0 <= i < |r| ==> r[i] == slots[i].data
  {
    seq(|slots|, i requires 0 <= i < |slots| reads slots => slots[i].data)
  }

  /** The next pointers of a run of slots, in order. */
  ghost function NextsOf<T>(slots: seq<Slot<T>>): (r: seq<Slot?<T>>)
    reads slots
    ensures |r| == |slots| && forall i {:trigger r[i]} :: 0 <= i < |r| ==> r[i] == slots[i].next
  {
    seq(|slots|, i requires 0 <= i < |slots| reads slots => slots[i].next)
  }

  /** What the next pointers of a well-formed list are: the slot behind, and NULL at the end. */
  ghost function Behind<T>(slots: seq<Slot<T>>): (r: seq<Slot?<T>>)
    ensures |r| == |slots|
    ensures forall i {:trigger r[i]} :: 0 <= i < |r| ==> r[i] == if i + 1 == |slots| then null else slots[i + 1]
  {
    seq(|slots|, i requires 0 <= i < |slots| => if i + 1 == |slots| then null else slots[i + 1])
  }

  /** Taking the first slot out and linking it in behind position k gives the list Moved(s, k). */
  lemma Relinked<T>(s: seq<Slot<T>>, k: nat)
    requires 0 < k < |s|
    requires NextsOf(s) == Behind(s)[0 := Behind(s)[k]][k := s[0]]
    ensures NextsOf(Moved(s, k)) == Behind(Moved(s, k))
  {
    assert NextsOf(Moved(s, k)) == Moved(NextsOf(s), k);
  }

  /** Starting at p, following next visits exactly these slots and ends at NULL. */
  ghost predicate Chain<T>(p: Slot?<T>, slots: seq<Slot<T>>)
    reads slots
  {
    && NoDup(slots)
    && p == (if slots == [] then null else slots[0])
    && NextsOf(slots) == Behind(slots)
  }

  /** The first slot of every slot's block is itself among the slots. */
  ghost predicate Closed<T>(slots: set<Slot<T>>) {
    forall s {:trigger HeadIn(s, slots)} :: s in slots ==> HeadIn(s, slots)
  }

  ghost predicate HeadIn<T>(s: Slot<T>, slots: set<Slot<T>>) {
    s.block in slots && s.block.Alloc()
  }

  /** Memory of a slot among live ones may be touched. */
  lemma Touchable<T>(slots: set<Slot<T>>, s: Slot<T>)
    requires Closed(slots) && Live(slots) && s in slots
    ensures s.block.live && s.block in slots && s.block.Alloc()
  {
    assert HeadIn(s, slots);
  }

  /** None of the blocks has been freed. */
  ghost predicate Live<T>(slots: set<Slot<T>>)
    reads slots
  {
    forall s :: s in slots && s.Alloc() ==> s.live
  }

  /** Pointing the last slot of one list to the first of another joins them. */
  lemma Joined<T>(a: seq<Slot<T>>, b: seq<Slot<T>>)
    requires a != [] && b != [] && SetOf(a) !! SetOf(b) && NoDup(a)
    requires NextsOf(a) == Behind(a)[|a| - 1 := b[0]] && Chain(b[0], b)
    requires Closed(SetOf(a)) && Closed(SetOf(b)) && Live(SetOf(a)) && Live(SetOf(b))
    ensures Chain(a[0], a + b) && Closed(SetOf(a + b)) && Live(SetOf(a + b))
    ensures (a + b)[|a| + |b| - 1] == b[|b| - 1]
  {
    NoDupAppend(a, b);
    forall s | s in SetOf(a + b)
      ensures HeadIn(s, SetOf(a + b))
    {
      assert HeadIn(s, SetOf(a)) || HeadIn(s, SetOf(b));
    }
    assert NextsOf(a + b) == NextsOf(a) + NextsOf(b);
  }

  /** p->next = n, for the slot at position i of a list. */
  method Link<T>(p: Slot<T>, n: Slot?<T>, ghost slots: seq<Slot<T>>, ghost i: nat)
    requires p.block.live && NoDup(slots) && i < |slots| && p == slots[i]
    modifies p`next
    ensures p.next == n && NextsOf(slots) == old(NextsOf(slots))[i := n]
  {
    p.next := n;
    Apart(slots, i);
  }

  /** ape_new_pool: one block of n linked, empty slots. */
  method NewPool<T>(n: nat, empty: T) returns (first: Slot<T>, last: Slot<T>, ghost run: seq<Slot<T>>)
    requires n > 0
    ensures |run| == n && last == run[n - 1]
    ensures Chain(first, run) && Closed(SetOf(run)) && Live(SetOf(run))
    ensures fresh(SetOf(run)) && forall s :: s in SetOf(run) ==> s.data == empty
  {
    first := new Slot.First(empty);
    last := first;
    run := [first];
    SetOfSnoc([], first);
    assert [] + [first] == run;
    var i := 1;
    while i < n
      invariant 1 <= i <= n && |run| == i && last == run[i - 1]
      invariant Chain(first, run) && fresh(SetOf(run))
      invariant first in SetOf(run) && first.Alloc() && first.live
      invariant forall s :: s in SetOf(run) ==> s.data == empty && s.block == first
    {
      var s := new Slot.Member(empty, first);
      assert last in SetOf(run);
      Link(last, s, run, i - 1);
      SetOfSnoc(run, s);
      assert NextsOf(run + [s]) == NextsOf(run) + [null];
      run := run + [s];
      last := s;
      i := i + 1;
    }
  }

  /** The first slot of a list is linked in behind the one at position k. */
  method MoveBehind<T>(h: Slot<T>, p: Slot<T>, ghost s: seq<Slot<T>>, ghost k: nat)
    requires 0 < k < |s| && h == s[0] && p == s[k] && h.block.live && p.block.live
    requires NoDup(s) && NextsOf(s) == Behind(s)
    modifies h`next, p`next
    ensures NextsOf(Moved(s, k)) == Behind(Moved(s, k))
    ensures h.next == if k + 1 == |s| then null else s[k + 1]
  {
    hide NoDup, Moved;
    assert p.Next() == NextsOf(s)[k];
    Apart(s, k);
    Link(h, p.Next(), s, 0);
    Link(p, h, s, k);
    Relinked(s, k);
  }

  /** ape_pool_list_t */
  class PoolList<T> {
    var head: Slot<T>
    var queue: Slot<T>
    var current: Slot<T>
    ghost var slots: seq<Slot<T>>
    /** The position of `current` in the list. */
    ghost var cur: nat

    ghost predicate Valid()
      reads this, slots
    {
      && 0 <= cur < |slots|
      && Chain(head, slots)
      && Closed(SetOf(slots)) && Live(SetOf(slots))
      && queue == slots[|slots| - 1]
      && current == slots[cur]
    }

    /** ape_init_pool_list */
    constructor (n: nat, empty: T)
      requires n > 0
      ensures Valid() && |slots| == n && cur == 0
      ensures fresh(SetOf(slots)) && forall s :: s in SetOf(slots) ==> s.data == empty
    {
      var first, last, run := NewPool(n, empty);
      head := first;
      current := first;
      queue := last;
      slots := run;
      cur := 0;
    }

    /** ape_grow_pool: a block of n empty slots is linked behind the tail. */
    method Grow(n: nat, empty: T) returns (pool: Slot<T>, ghost run: seq<Slot<T>>)
      requires Valid() && n > 0
      modifies this`queue, this`slots, queue`next
      ensures Valid() && |run| == n && slots == old(slots) + run && pool == run[0]
      ensures fresh(SetOf(run)) && forall s :: s in SetOf(run) ==> s.data == empty
    {
      ghost var s := slots;
      var last;
      pool, last, run := NewPool(n, empty);
      assert SetOf(s) !! SetOf(run);
      Touchable(SetOf(s), queue);
      Link(queue, pool, s, |s| - 1);
      queue := last;
      assert Chain(pool, run) && Live(SetOf(run)) && Live(SetOf(s));
      Joined(s, run);
      slots := s + run;
    }

    /** ape_pool_head_to_queue: the head becomes the tail. */
    method HeadToQueue()
      requires Valid() && |slots| > 1
      modifies this`head, this`queue, this`slots, this`cur, head`next, queue`next
      ensures Valid()
      ensures slots == Moved(old(slots), |old(slots)| - 1)
      ensures cur == if old(cur) == 0 then |slots| - 1 else old(cur) - 1
    {
      Touchable(SetOf(slots), head);
      Touchable(SetOf(slots), queue);
      hide NoDup, Closed, SetOf, Behind;
      ghost var s, k := slots, |slots| - 1;
      var h := head;
      assert h.next == NextsOf(s)[0];
      head := h.next;
      Link(queue, h, s, k);
      queue := h;
      Link(h, null, s, 0);
      MovedKeeps(s, k);
      slots := Moved(s, k);
      cur := if cur == 0 then k else cur - 1;
      Relinked(s, k);
    }

    /** ape_pool_head_to_current: the head is moved right behind `current` and becomes it. */
    method HeadToCurrent()
      requires Valid()
      modifies this`head, this`queue, this`current, this`slots, head`next, current`next
      ensures Valid() && cur == old(cur)
      ensures slots == Moved(old(slots), cur)
    {
      Apart(slots, cur);
      if head == current {
        MovedNone(slots);
        return;
      }
      HeadBehindCurrent();
    }

    method HeadBehindCurrent()
      requires Valid() && cur > 0
      modifies this`head, this`queue, this`current, this`slots, head`next, current`next
      ensures Valid() && cur == old(cur)
      ensures slots == Moved(old(slots), cur)
    {
      ghost var s := slots;
      var h := head;
      Touchable(SetOf(s), h);
      Touchable(SetOf(s), current);
      assert h.next == NextsOf(s)[0];
      head := h.Next();
      MoveBehind(h, current, s, cur);
      hide NoDup, Closed, SetOf, Behind, NextsOf;
      current := h;
      if h.Next() == null {
        queue := h;
      }
      MovedKeeps(s, cur);
      slots := Moved(s, cur);
    }

    /** current = current->next */
    method Advance()
      requires Valid() && cur + 1 < |slots|
      modifies this`current, this`cur
      ensures Valid() && cur == old(cur) + 1
    {
      assert current.next == NextsOf(slots)[cur];
      current := current.next;
      cur := cur + 1;
    }

    /** ape_pool_push */
    method Push(data: T, empty: T) returns (ghost run: seq<Slot<T>>)
      requires Valid()
      modifies this`queue, this`slots, this`current, this`cur, queue`next, current`data
      ensures Valid() && cur == old(cur) + 1 && old(current).data == data
      ensures slots == old(slots) + run && (run != [] <==> cur == old(|slots|))
      ensures fresh(SetOf(run)) && forall s :: s in SetOf(run) ==> s.data == empty
    {
      run := [];
      ghost var s := slots;
      assert current.next == NextsOf(s)[cur] && current in SetOf(s);
      if current.next == null {
        var pool;
        pool, run := Grow(8, empty);
        assert current.next == NextsOf(slots)[cur];
      }
      current.data := data;
      current := current.next;
      cur := cur + 1;
    }
  }

  lemma ChainTail<T>(p: Slot<T>, slots: seq<Slot<T>>)
    requires Chain(p, slots)
    ensures Chain(p.next, slots[1..])
    ensures SetOf(slots) == {p} + SetOf(slots[1..]) && p !in SetOf(slots[1..])
  {
    assert slots == [p] + slots[1..];
    NoDupCons(p, slots[1..]);
    assert NextsOf(slots)[0] == Behind(slots)[0];
    assert NextsOf(slots[1..]) == NextsOf(slots)[1..];
    assert Behind(slots[1..]) == Behind(slots)[1..];
  }

  /** The block heads among the first n slots, last one first. */
  ghost function HeadsBack<T>(slots: seq<Slot<T>>, n: nat): (r: seq<Slot<T>>)
    requires n <= |slots|
  {
    if n == 0 then []
    else if slots[n - 1].Alloc() then [slots[n - 1]] + HeadsBack(slots, n - 1)
    else HeadsBack(slots, n - 1)
  }

  lemma {:induction false} HeadsBackMembers<T>(slots: seq<Slot<T>>, n: nat)
    requires n <= |slots|
    ensures SetOf(HeadsBack(slots, n)) == set s | s in slots[..n] && s.Alloc()
  {
    if n > 0 {
      HeadsBackMembers(slots, n - 1);
      assert slots[..n] == slots[..n - 1] + [slots[n - 1]];
      if slots[n - 1].Alloc() {
        NoDupCons(slots[n - 1], HeadsBack(slots, n - 1));
      }
    }
  }

  lemma {:induction false} HeadsBackNoDup<T>(slots: seq<Slot<T>>, n: nat)
    requires n <= |slots| && NoDup(slots)
    ensures NoDup(HeadsBack(slots, n))
  {
    if n > 0 {
      HeadsBackNoDup(slots, n - 1);
      HeadsBackMembers(slots, n - 1);
      NoDupDistinct(slots);
      assert slots[n - 1] !in SetOf(HeadsBack(slots, n - 1));
      NoDupCons(slots[n - 1], HeadsBack(slots, n - 1));
    }
  }

  /** The block heads passed are distinct slots, and none of those still ahead. */
  lemma HeadsBackSet<T>(slots: seq<Slot<T>>, n: nat)
    requires n <= |slots| && NoDup(slots)
    ensures SetOf(HeadsBack(slots, n)) == set s | s in slots[..n] && s.Alloc()
    ensures NoDup(HeadsBack(slots, n)) && SetOf(HeadsBack(slots, n)) !! SetOf(slots[n..])
  {
    HeadsBackMembers(slots, n);
    HeadsBackNoDup(slots, n);
    NoDupDistinct(slots);
  }

  /** tPool leads through next to exactly the slots of path; its last one is fPool, about whose
      own next nothing is said. */
  ghost predicate Threads<T>(tPool: Slot?<T>, fPool: Slot?<T>, path: seq<Slot<T>>)
    reads path
  {
    && tPool == (if path == [] then null else path[0])
    && fPool == (if path == [] then null else path[|path| - 1])
    && (path != [] ==> NextsOf(path)[..|path| - 1] == Behind(path)[..|path| - 1])
  }

  lemma ThreadsCons<T>(p: Slot<T>, fPool: Slot<T>, path: seq<Slot<T>>)
    requires path != [] && Threads(p.next, fPool, path)
    ensures Threads(p, fPool, [p] + path)
  {
    assert NextsOf([p] + path) == [p.next] + NextsOf(path);
    assert Behind([p] + path) == [path[0]] + Behind(path);
  }

  /** ape_destroy_pool_with_cleaner. `cleaned` lists the payloads handed to the cleaner, in order,
      and `freed` the addresses handed to free. */
  method DestroyWithCleaner<T>(first: Slot?<T>, ghost slots: seq<Slot<T>>)
    returns (cleaned: seq<T>, freed: seq<Slot<T>>)
    requires Chain(first, slots) && Closed(SetOf(slots)) && Live(SetOf(slots))
    modifies slots
    ensures cleaned == old(DataOf(slots))
    ensures NoDup(freed) && forall s :: s in freed <==> s in slots && s.Alloc()
    ensures forall s :: s in slots ==> !s.block.live
  {
    var tPool: Slot?<T>;
    cleaned, tPool := CleanAll(first, slots);
    ghost var path := HeadsBack(slots, |slots|);
    AllHeads(slots);
    forall i | 0 <= i < |path|
      ensures path[i].Alloc() && path[i].live
    {
      assert path[i] in path && path[i] in SetOf(slots);
    }
    freed := FreeHeads(tPool, path);
    forall s | s in slots
      ensures !s.block.live
    {
      assert s in SetOf(slots) && HeadIn(s, SetOf(slots));
      assert s.block in slots && s.block in path;
    }
  }

  lemma AllHeads<T>(slots: seq<Slot<T>>)
    requires NoDup(slots)
    ensures forall s :: s in slots && s.Alloc() ==> s in HeadsBack(slots, |slots|)
    ensures forall s :: s in HeadsBack(slots, |slots|) ==> s in slots && s.Alloc()
    ensures NoDup(HeadsBack(slots, |slots|))
  {
    HeadsBackMembers(slots, |slots|);
    HeadsBackNoDup(slots, |slots|);
    assert slots[..|slots|] == slots;
    forall s | s in slots && s.Alloc()
      ensures s in HeadsBack(slots, |slots|)
    {
      assert s in SetOf(HeadsBack(slots, |slots|));
    }
    forall s | s in HeadsBack(slots, |slots|)
      ensures s in slots && s.Alloc()
    {
      assert s in SetOf(HeadsBack(slots, |slots|));
    }
  }

  /** The body of the first loop for a block head that is not the first one: fPool's next keeps the
      place in the list while the head's own next is turned around. */
  method Rethread<T>(head: Slot<T>, fPool: Slot<T>, last: Slot<T>, ghost path: seq<Slot<T>>, ghost rest: seq<Slot<T>>)
    returns (pool: Slot?<T>, tPool: Slot<T>)
    requires head.block.live && fPool.block.live
    requires Chain(head.next, rest) && head !in rest
    requires Threads(last, fPool, path) && NoDup(path) && head !in path && SetOf(path) !! SetOf(rest)
    modifies head`next, fPool`next
    ensures tPool == head && Chain(pool, rest) && Threads(tPool, fPool, [head] + path)
  {
    assert fPool in SetOf(path) && fPool !in SetOf(rest);
    Link(fPool, head.Next(), path, |path| - 1);
    head.next := last;
    tPool := head;
    ThreadsCons(tPool, fPool, path);
    pool := fPool.Next();
  }

  /** fPool->next = NULL */
  method Terminate<T>(fPool: Slot<T>, tPool: Slot?<T>, ghost path: seq<Slot<T>>)
    requires fPool.block.live
    requires NoDup(path) && Threads(tPool, fPool, path)
    modifies fPool`next
    ensures Chain(tPool, path)
  {
    Link(fPool, null, path, |path| - 1);
    assert NextsOf(path) == Behind(path);
  }

  /** The first loop: every slot is cleaned and the block heads are threaded together. */
  method CleanAll<T>(first: Slot?<T>, ghost slots: seq<Slot<T>>)
    returns (cleaned: seq<T>, tPool: Slot?<T>)
    requires Chain(first, slots) && Closed(SetOf(slots)) && Live(SetOf(slots))
    modifies slots`next
    ensures cleaned == old(DataOf(slots))
    ensures Chain(tPool, HeadsBack(slots, |slots|)) && Live(SetOf(slots))
  {
    hide NextsOf, Behind, NoDup;
    var pool: Slot?<T>, fPool: Slot?<T> := first, null;
    tPool := null;
    cleaned := [];
    ghost var all, i := DataOf(slots), 0;
    while pool != null
      invariant 0 <= i <= |slots|
      invariant Chain(pool, slots[i..])
      invariant Threads(tPool, fPool, HeadsBack(slots, i))
      invariant cleaned == all[..i]
      decreases |slots| - i
    {
      ghost var path, rest := HeadsBack(slots, i), slots[i + 1..];
      DropCons(slots, i);
      assert pool == slots[i];
      Touchable(SetOf(slots), pool);
      HeadsBackSet(slots, i);
      ChainTail(pool, slots[i..]);
      assert pool.data == all[i];
      TakeSnoc(all, i);
      cleaned := cleaned + [pool.Data()];
      i := i + 1;
      if pool.IsAlloc() {
        if fPool == null {
          fPool := pool;
        }
        if tPool != null {
          assert fPool in SetOf(path) && fPool in slots;
          pool, tPool := Rethread(pool, fPool, tPool, path, rest);
          continue;
        }
        tPool := pool;
      }
      pool := pool.Next();
    }
    assert slots[..i] == slots;
    HeadsBackSet(slots, i);
    if fPool != null {
      ghost var path := HeadsBack(slots, i);
      assert fPool in SetOf(path) && fPool in slots;
      Terminate(fPool, tPool, path);
    }
  }

  /** The second loop: the threaded block heads are freed. */
  method FreeHeads<T>(tPool: Slot?<T>, ghost path: seq<Slot<T>>)
    returns (freed: seq<Slot<T>>)
    requires Chain(tPool, path) && forall i :: 0 <= i < |path| ==> path[i].Alloc() && path[i].live
    modifies path`live
    ensures freed == path && forall s :: s in path ==> !s.live
  {
    var pool: Slot?<T> := tPool;
    freed := [];
    hide NextsOf, Behind, NoDup;
    ghost var i := 0;
    while pool != null && pool.IsAlloc()
      invariant 0 <= i <= |path|
      invariant Chain(pool, path[i..])
      invariant forall j :: 0 <= j < |path| ==> (path[j].live <==> i <= j)
      invariant freed == path[..i]
      decreases |path| - i
    {
      ChainTail(pool, path[i..]);
      assert path[i..][1..] == path[i + 1..] && pool == path[i];
      Apart(path, i);
      var next := pool.Next();
      pool.Free();
      freed := freed + [pool];
      pool := next;
      i := i + 1;
    }
  }
}
