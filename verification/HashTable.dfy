/** The integer keyed hash table of ape_hash.c: bucket chains, and a doubly linked list through all
    items. There is no cleaner. */
module HashTables {
  import opened Seqs

  // ---------- what a table holds ----------

  datatype Entry = Entry(key: nat, addrs: nat)

  const NULL: nat := 0

  predicate Has(es: seq<Entry>, key: nat) {
    exists i :: 0 <= i < |es| && es[i].key == key
  }

  /** A key is held once. */
  predicate Unique(es: seq<Entry>) {
    forall i, j :: 0 <= i < j < |es| ==> es[i].key != es[j].key
  }

  function Lookup(es: seq<Entry>, key: nat): nat {
    if es == [] then NULL else if es[0].key == key then es[0].addrs else Lookup(es[1..], key)
  }

  /** The entries after hashtbl_append64, newest first. */
  function Appended(es: seq<Entry>, key: nat, addrs: nat): seq<Entry> {
    if Has(es, key) then Replaced(es, key, addrs) else [Entry(key, addrs)] + es
  }

  function Replaced(es: seq<Entry>, key: nat, addrs: nat): (r: seq<Entry>)
    ensures |r| == |es| && forall i :: 0 <= i < |r| ==>
      r[i] == if es[i].key == key then Entry(key, addrs) else es[i]
  {
    seq(|es|, i requires 0 <= i < |es| => if es[i].key == key then Entry(key, addrs) else es[i])
  }

  /** The entries after hashtbl_erase64. */
  function Erased(es: seq<Entry>, key: nat): seq<Entry> {
    if es == [] then [] else if es[0].key == key then es[1..] else [es[0]] + Erased(es[1..], key)
  }

  // ---------- against a map ----------

  datatype Op = Append(key: nat, addrs: nat) | Erase(key: nat)

  function Step(es: seq<Entry>, op: Op): seq<Entry> {
    match op
    case Append(key, addrs) => Appended(es, key, addrs)
    case Erase(key) => Erased(es, key)
  }

  function Run(ops: seq<Op>): seq<Entry> {
    if ops == [] then [] else Step(Run(ops[..|ops| - 1]), ops[|ops| - 1])
  }

  function Meaning(ops: seq<Op>): map<nat, nat> {
    if ops == [] then map[]
    else
      var m := Meaning(ops[..|ops| - 1]);
      match ops[|ops| - 1]
      case Append(key, addrs) => m[key := addrs]
      case Erase(key) => m - {key}
  }

  /** The keys held, in the order in which they came in. */
  function Arrivals(ops: seq<Op>): seq<nat> {
    if ops == [] then []
    else
      var ks := Arrivals(ops[..|ops| - 1]);
      match ops[|ops| - 1]
      case Append(key, _) => if key in ks then ks else ks + [key]
      case Erase(key) => Filtered(ks, key)
  }

  /** ks without a key */
  function Filtered(ks: seq<nat>, key: nat): seq<nat> {
    if ks == [] then [] else (if ks[0] == key then [] else [ks[0]]) + Filtered(ks[1..], key)
  }

  function Reversed(ks: seq<nat>): (r: seq<nat>)
    ensures |r| == |ks| && forall i :: 0 <= i < |r| ==> r[i] == ks[|ks| - 1 - i]
  {
    seq(|ks|, i requires 0 <= i < |ks| => ks[|ks| - 1 - i])
  }

  function KeysOf(es: seq<Entry>): (r: seq<nat>)
    ensures |r| == |es| && forall i :: 0 <= i < |r| ==> r[i] == es[i].key
  {
    seq(|es|, i requires 0 <= i < |es| => es[i].key)
  }

  /** The entries and a map say the same. */
  ghost predicate Agree(es: seq<Entry>, m: map<nat, nat>) {
    && Unique(es)
    && (forall i :: 0 <= i < |es| ==> es[i].key in m && m[es[i].key] == es[i].addrs)
    && (forall k :: k in m ==> Has(es, k))
  }

  lemma {:induction false} LookupAt(es: seq<Entry>, i: nat)
    requires Unique(es) && i < |es|
    ensures Lookup(es, es[i].key) == es[i].addrs
  {
    if i > 0 {
      LookupAt(es[1..], i - 1);
    }
  }

  lemma {:induction false} LookupAbsent(es: seq<Entry>, key: nat)
    requires forall i :: 0 <= i < |es| ==> es[i].key != key
    ensures Lookup(es, key) == NULL && Erased(es, key) == es
  {
    if es != [] {
      LookupAbsent(es[1..], key);
    }
  }

  lemma {:induction false} ErasedAt(es: seq<Entry>, i: nat)
    requires Unique(es) && i < |es|
    ensures Erased(es, es[i].key) == Cut(es, i)
  {
    if i > 0 {
      ErasedAt(es[1..], i - 1);
    }
  }

  lemma AppendAgrees(es: seq<Entry>, m: map<nat, nat>, key: nat, addrs: nat)
    requires Agree(es, m)
    ensures Agree(Appended(es, key, addrs), m[key := addrs])
  {
    var r, n := Appended(es, key, addrs), m[key := addrs];
    forall k | k in n
      ensures Has(r, k)
    {
      if k != key || Has(es, key) {
        assert Has(es, k);
        var i :| 0 <= i < |es| && es[i].key == k;
        assert r[if Has(es, key) then i else i + 1].key == k;
      } else {
        assert r[0].key == k;
      }
    }
  }

  lemma CutAgrees(es: seq<Entry>, m: map<nat, nat>, i: nat)
    requires Agree(es, m) && i < |es|
    ensures Agree(Cut(es, i), m - {es[i].key})
  {
    var r, n := Cut(es, i), m - {es[i].key};
    forall k | k in n
      ensures Has(r, k)
    {
      assert Has(es, k);
      var j :| 0 <= j < |es| && es[j].key == k;
      assert r[if j < i then j else j - 1].key == k;
    }
    forall j | 0 <= j < |r|
      ensures r[j].key in n && n[r[j].key] == r[j].addrs
    {
      assert r[j] == es[if j < i then j else j + 1];
    }
  }

  lemma EraseAgrees(es: seq<Entry>, m: map<nat, nat>, key: nat)
    requires Agree(es, m)
    ensures Agree(Erased(es, key), m - {key})
  {
    if Has(es, key) {
      var i :| 0 <= i < |es| && es[i].key == key;
      ErasedAt(es, i);
      CutAgrees(es, m, i);
    } else {
      LookupAbsent(es, key);
    }
  }

  /** After any calls the table holds what a map would. */
  lemma {:induction false} TableIsMap(ops: seq<Op>)
    ensures Agree(Run(ops), Meaning(ops))
    ensures forall k: nat :: Lookup(Run(ops), k) == if k in Meaning(ops) then Meaning(ops)[k] else NULL
  {
    if ops != [] {
      var before := ops[..|ops| - 1];
      TableIsMap(before);
      match ops[|ops| - 1]
      case Append(key, addrs) => AppendAgrees(Run(before), Meaning(before), key, addrs);
      case Erase(key) => EraseAgrees(Run(before), Meaning(before), key);
    }
    var es, m := Run(ops), Meaning(ops);
    forall k: nat
      ensures Lookup(es, k) == if k in m then m[k] else NULL
    {
      if k in m {
        assert Has(es, k);
        var i :| 0 <= i < |es| && es[i].key == k;
        LookupAt(es, i);
      } else {
        LookupAbsent(es, k);
      }
    }
  }

  lemma {:induction false} FilteredNone(ks: seq<nat>, key: nat)
    requires key !in ks
    ensures Filtered(ks, key) == ks
  {
    if ks != [] {
      FilteredNone(ks[1..], key);
    }
  }

  lemma {:induction false} FilteredAt(ks: seq<nat>, i: nat)
    requires i < |ks| && forall a, b :: 0 <= a < b < |ks| ==> ks[a] != ks[b]
    ensures Filtered(ks, ks[i]) == Cut(ks, i)
  {
    if i > 0 {
      FilteredAt(ks[1..], i - 1);
    } else {
      FilteredNone(ks[1..], ks[0]);
    }
  }

  /** Newest first. */
  ghost predicate Mirrors(es: seq<Entry>, ks: seq<nat>) {
    |es| == |ks| && forall i :: 0 <= i < |es| ==> es[i].key == ks[|ks| - 1 - i]
  }

  lemma AppendMirrors(es: seq<Entry>, ks: seq<nat>, key: nat, addrs: nat)
    requires Mirrors(es, ks)
    ensures Mirrors(Appended(es, key, addrs), if key in ks then ks else ks + [key])
  {
    if key in ks {
      var i :| 0 <= i < |ks| && ks[i] == key;
      assert es[|ks| - 1 - i].key == key;
    }
  }

  lemma CutMirrors(es: seq<Entry>, ks: seq<nat>, i: nat)
    requires Mirrors(es, ks) && i < |es|
    ensures Mirrors(Cut(es, i), Cut(ks, |ks| - 1 - i))
  {
  }

  lemma AbsentMirrors(es: seq<Entry>, ks: seq<nat>, key: nat)
    requires Mirrors(es, ks) && !Has(es, key)
    ensures key !in ks
  {
    forall i | 0 <= i < |ks|
      ensures ks[i] != key
    {
      assert ks[i] == es[|ks| - 1 - i].key;
    }
  }

  lemma PresentMirrors(es: seq<Entry>, ks: seq<nat>, i: nat)
    requires Mirrors(es, ks) && Unique(es) && i < |es|
    ensures Mirrors(Erased(es, es[i].key), Filtered(ks, es[i].key))
  {
    KeysApart(es, ks);
    CutMirrors(es, ks, i);
    ErasedAt(es, i);
    FilteredAt(ks, |ks| - 1 - i);
  }

  lemma EraseMirrors(es: seq<Entry>, ks: seq<nat>, key: nat)
    requires Mirrors(es, ks) && Unique(es)
    ensures Mirrors(Erased(es, key), Filtered(ks, key))
  {
    if Has(es, key) {
      var i :| 0 <= i < |es| && es[i].key == key;
      PresentMirrors(es, ks, i);
    } else {
      LookupAbsent(es, key);
      AbsentMirrors(es, ks, key);
      FilteredNone(ks, key);
    }
  }

  lemma KeysApart(es: seq<Entry>, ks: seq<nat>)
    requires Mirrors(es, ks) && Unique(es)
    ensures forall a, b :: 0 <= a < b < |ks| ==> ks[a] != ks[b]
  {
    forall a, b | 0 <= a < b < |ks|
      ensures ks[a] != ks[b]
    {
      var n := |ks|;
      assert es[n - 1 - b].key == ks[b] && es[n - 1 - a].key == ks[a];
    }
  }

  lemma {:induction false} AllMirrors(ops: seq<Op>)
    ensures Mirrors(Run(ops), Arrivals(ops))
  {
    if ops != [] {
      var before := ops[..|ops| - 1];
      AllMirrors(before);
      TableIsMap(before);
      match ops[|ops| - 1]
      case Append(key, addrs) => AppendMirrors(Run(before), Arrivals(before), key, addrs);
      case Erase(key) => EraseMirrors(Run(before), Arrivals(before), key);
    }
  }

  /** The list through all items is in reverse order of first insertion. */
  lemma NewestFirst(ops: seq<Op>)
    ensures KeysOf(Run(ops)) == Reversed(Arrivals(ops))
  {
    AllMirrors(ops);
  }

  // ---------- the table ----------

  /** ape_htable_item_t */
  class Item {
    const key: nat
    var addrs: nat
    var next: Item?
    var lnext: Item?
    var lprev: Item?
    /** It has not been freed. */
    var live: bool

    constructor (key: nat, addrs: nat, lnext: Item?)
      ensures this.key == key && this.addrs == addrs && next == null && this.lnext == lnext && lprev == null && live
    {
      this.key, this.addrs, this.lnext := key, addrs, lnext;
      next, lprev, live := null, null, true;
    }
  }

  /** The item at a position, NULL beyond the ends. */
  ghost function At(items: seq<Item>, i: int): Item? {
    if 0 <= i < |items| then items[i] else null
  }

  ghost predicate Apart(items: seq<Item>) {
    forall i, j :: 0 <= i < j < |items| ==> items[i] != items[j]
  }

  ghost predicate KeysUnique(items: seq<Item>) {
    forall i, j :: 0 <= i < j < |items| ==> items[i].key != items[j].key
  }

  /** What the pointers of the items are. */
  ghost function NextsOf(items: seq<Item>): (r: seq<Item?>)
    reads items
    ensures |r| == |items| && forall i {:trigger r[i]} :: 0 <= i < |r| ==> r[i] == items[i].next
  {
    seq(|items|, i requires 0 <= i < |items| reads items => items[i].next)
  }

  ghost function LNextsOf(items: seq<Item>): (r: seq<Item?>)
    reads items
    ensures |r| == |items| && forall i {:trigger r[i]} :: 0 <= i < |r| ==> r[i] == items[i].lnext
  {
    seq(|items|, i requires 0 <= i < |items| reads items => items[i].lnext)
  }

  ghost function LPrevsOf(items: seq<Item>): (r: seq<Item?>)
    reads items
    ensures |r| == |items| && forall i {:trigger r[i]} :: 0 <= i < |r| ==> r[i] == items[i].lprev
  {
    seq(|items|, i requires 0 <= i < |items| reads items => items[i].lprev)
  }

  /** What the pointers of a list or chain should be. */
  ghost function Nexts(items: seq<Item>): (r: seq<Item?>)
    ensures |r| == |items| && forall i {:trigger r[i]} :: 0 <= i < |r| ==> r[i] == At(items, i + 1)
  {
    seq(|items|, i requires 0 <= i < |items| => At(items, i + 1))
  }

  ghost function Prevs(items: seq<Item>): (r: seq<Item?>)
    ensures |r| == |items| && forall i {:trigger r[i]} :: 0 <= i < |r| ==> r[i] == At(items, i - 1)
  {
    seq(|items|, i requires 0 <= i < |items| => At(items, i - 1))
  }

  ghost function Entries(items: seq<Item>): (r: seq<Entry>)
    reads items
    ensures |r| == |items| && forall i :: 0 <= i < |r| ==> r[i] == Entry(items[i].key, items[i].addrs)
  {
    seq(|items|, i requires 0 <= i < |items| reads items => Entry(items[i].key, items[i].addrs))
  }

  ghost predicate Belongs(x: Item, size: nat, b: nat)
    requires size > 0
  {
    x.key % size == b
  }

  /** The items of a bucket, in list order. */
  ghost function Bucket(items: seq<Item>, size: nat, b: nat): (r: seq<Item>)
    requires size > 0
    ensures forall j :: 0 <= j < |r| ==> r[j] in items && Belongs(r[j], size, b)
    ensures forall i :: 0 <= i < |items| && Belongs(items[i], size, b) ==> items[i] in r
  {
    if items == [] then []
    else (if Belongs(items[0], size, b) then [items[0]] else []) + Bucket(items[1..], size, b)
  }

  /** The list that starts at first. */
  ghost predicate Listed(first: Item?, items: seq<Item>)
    reads items
  {
    && first == At(items, 0)
    && Apart(items) && KeysUnique(items)
    && LNextsOf(items) == Nexts(items) && LPrevsOf(items) == Prevs(items)
    && forall i :: 0 <= i < |items| ==> items[i].live
  }

  /** The chain that starts at p. */
  ghost predicate Chained(p: Item?, chain: seq<Item>)
    reads chain
  {
    p == At(chain, 0) && NextsOf(chain) == Nexts(chain)
  }

  lemma {:induction false} BucketApart(items: seq<Item>, size: nat, b: nat)
    requires size > 0 && Apart(items)
    ensures Apart(Bucket(items, size, b))
  {
    if items != [] {
      BucketApart(items[1..], size, b);
      assert items[0] !in items[1..];
    }
  }

  lemma BucketMore(n: Item, items: seq<Item>, size: nat, b: nat)
    requires size > 0
    ensures Bucket([n] + items, size, b) ==
      if Belongs(n, size, b) then [n] + Bucket(items, size, b) else Bucket(items, size, b)
  {
    assert ([n] + items)[1..] == items;
  }

  lemma {:induction false} BucketAppend(a: seq<Item>, c: seq<Item>, size: nat, b: nat)
    requires size > 0
    ensures Bucket(a + c, size, b) == Bucket(a, size, b) + Bucket(c, size, b)
  {
    hide Belongs;
    if a == [] {
      assert a + c == c;
    } else {
      assert (a + c)[0] == a[0] && (a + c)[1..] == a[1..] + c;
      BucketAppend(a[1..], c, size, b);
    }
  }

  lemma BucketSplit(a: seq<Item>, x: Item, c: seq<Item>, size: nat, b: nat)
    requires size > 0
    ensures var front, back := Bucket(a, size, b), Bucket(c, size, b);
      && Bucket(a + ([x] + c), size, b) == (if Belongs(x, size, b) then front + ([x] + back) else front + back)
      && Bucket(a + c, size, b) == front + back
  {
    BucketAppend(a, c, size, b);
    BucketAppend(a, [x] + c, size, b);
    BucketMore(x, c, size, b);
  }

  /** An item taken out of the list is taken out of its bucket. */
  lemma BucketCut(items: seq<Item>, size: nat, i: nat, b: nat, j: nat)
    requires size > 0 && Apart(items) && i < |items|
    requires Belongs(items[i], size, b) ==>
      j < |Bucket(items, size, b)| && Bucket(items, size, b)[j] == items[i]
    ensures Bucket(Cut(items, i), size, b) ==
      if Belongs(items[i], size, b) then Cut(Bucket(items, size, b), j) else Bucket(items, size, b)
  {
    hide Bucket, Belongs;
    var a, x, c := items[..i], items[i], items[i + 1..];
    assert items == a + ([x] + c) && Cut(items, i) == a + c;
    BucketSplit(a, x, c, size, b);
    if Belongs(x, size, b) {
      BucketApart(items, size, b);
      CutAt(Bucket(a, size, b), x, Bucket(c, size, b), j);
    }
  }

  lemma CutAt(front: seq<Item>, x: Item, back: seq<Item>, j: nat)
    requires Apart(front + ([x] + back)) && j <= |front| + |back| && (front + ([x] + back))[j] == x
    ensures Cut(front + ([x] + back), j) == front + back
  {
    var k := |front|;
    assert (front + ([x] + back))[k] == x;
    assert j == k;
  }

  /** p->next = n */
  method SetNext(p: Item, n: Item?, ghost chain: seq<Item>, ghost j: nat)
    requires Apart(chain) && j < |chain| && p == chain[j]
    modifies p`next
    ensures p.next == n && NextsOf(chain) == old(NextsOf(chain))[j := n]
  {
    p.next := n;
  }

  /** p->lnext = n */
  method SetLNext(p: Item, n: Item?, ghost items: seq<Item>, ghost i: nat)
    requires Apart(items) && i < |items| && p == items[i]
    modifies p`lnext
    ensures p.lnext == n && LNextsOf(items) == old(LNextsOf(items))[i := n]
  {
    p.lnext := n;
  }

  /** p->lprev = n */
  method SetLPrev(p: Item, n: Item?, ghost items: seq<Item>, ghost i: nat)
    requires Apart(items) && i < |items| && p == items[i]
    modifies p`lprev
    ensures p.lprev == n && LPrevsOf(items) == old(LPrevsOf(items))[i := n]
  {
    p.lprev := n;
  }

  lemma ListedMore(n: Item, items: seq<Item>)
    requires n !in items && n.lnext == At(items, 0) && n.lprev == null && n.live
    requires Apart(items) && KeysUnique(items)
    requires forall i :: 0 <= i < |items| ==> items[i].live && items[i].key != n.key
    requires LNextsOf(items) == Nexts(items)
    requires LPrevsOf(items) == if items == [] then [] else Prevs(items)[0 := n]
    ensures Listed(n, [n] + items)
  {
    var r := [n] + items;
    assert LNextsOf(r) == [n.lnext] + LNextsOf(items) == Nexts(r);
    assert LPrevsOf(r) == [n.lprev] + LPrevsOf(items) == Prevs(r);
  }

  /** A new first item. */
  method Prepend(n: Item, first: Item?, ghost items: seq<Item>)
    requires Listed(first, items) && n !in items && n.lnext == first && n.lprev == null && n.live
    requires forall i :: 0 <= i < |items| ==> items[i].key != n.key
    modifies if first == null then {} else {first}`lprev
    ensures Listed(n, [n] + items)
  {
    if first != null {
      SetLPrev(first, n, items, 0);
    }
    ListedMore(n, items);
  }

  lemma ListedCut(items: seq<Item>, k: nat)
    requires k < |items| && Apart(items) && KeysUnique(items)
    requires LNextsOf(items) == if k == 0 then Nexts(items) else Nexts(items)[k - 1 := At(items, k + 1)]
    requires LPrevsOf(items) == if k + 1 == |items| then Prevs(items) else Prevs(items)[k + 1 := At(items, k - 1)]
    requires forall i :: 0 <= i < |items| && i != k ==> items[i].live
    ensures Listed(At(items, if k == 0 then 1 else 0), Cut(items, k))
  {
    var r := Cut(items, k);
    assert LNextsOf(r) == Cut(LNextsOf(items), k);
    assert LPrevsOf(r) == Cut(LPrevsOf(items), k);
  }

  /** The pointers of the list are led past an item. */
  method Bypass(x: Item, ghost items: seq<Item>, ghost k: nat)
    requires Apart(items) && k < |items| && x == items[k]
    requires LNextsOf(items) == Nexts(items) && LPrevsOf(items) == Prevs(items)
    modifies items`lnext, items`lprev
    ensures LNextsOf(items) == if k == 0 then Nexts(items) else Nexts(items)[k - 1 := At(items, k + 1)]
    ensures LPrevsOf(items) == if k + 1 == |items| then Prevs(items) else Prevs(items)[k + 1 := At(items, k - 1)]
  {
    assert x.lnext == LNextsOf(items)[k] && x.lprev == LPrevsOf(items)[k];
    if x.lprev != null {
      SetLNext(x.lprev, x.lnext, items, k - 1);
    }
    if x.lnext != null {
      SetLPrev(x.lnext, x.lprev, items, k + 1);
    }
  }

  /** An item is taken out of the list through all items, and freed. */
  method Unlist(x: Item, first: Item?, ghost items: seq<Item>, ghost k: nat) returns (first': Item?)
    requires Listed(first, items) && k < |items| && x == items[k]
    modifies items`lnext, items`lprev, x`live
    ensures Listed(first', Cut(items, k)) && !x.live
  {
    assert x.lnext == LNextsOf(items)[k] && x.lprev == LPrevsOf(items)[k];
    first' := if x.lprev == null then x.lnext else first;
    Bypass(x, items, k);
    hide LNextsOf, LPrevsOf, Nexts, Prevs;
    x.live := false;
    ListedCut(items, k);
  }

  lemma ChainedMore(n: Item, chain: seq<Item>)
    requires NextsOf(chain) == Nexts(chain) && n.next == At(chain, 0)
    ensures Chained(n, [n] + chain)
  {
    assert NextsOf([n] + chain) == [n.next] + NextsOf(chain);
  }

  lemma ChainedCut(p: Item?, chain: seq<Item>, j: nat)
    requires j < |chain| && p == At(chain, if j == 0 then 1 else 0)
    requires NextsOf(chain) == if j == 0 then Nexts(chain) else Nexts(chain)[j - 1 := At(chain, j + 1)]
    ensures Chained(p, Cut(chain, j))
  {
    assert NextsOf(Cut(chain, j)) == Cut(NextsOf(chain), j);
  }

  /** A new item is linked in at the beginning of its bucket's chain. */
  method PushChain(table: array<Item?>, x: Item, ghost items: seq<Item>)
    requires table.Length > 0 && x !in items
    requires ChainsOk(table, items)
    modifies table, x`next
    ensures ChainsOk(table, [x] + items)
  {
    ghost var size := table.Length;
    var b := x.key % table.Length;
    x.next := table[b];
    table[b] := x;
    hide Bucket;
    forall c | 0 <= c < size
      ensures ChainOk(table, [x] + items, c)
    {
      ghost var chain := Bucket(items, size, c);
      assert old(ChainOk(table, items, c));
      assert NextsOf(chain) == old(NextsOf(chain));
      BucketMore(x, items, size, c);
      if c == b {
        ChainedMore(x, chain);
      }
    }
  }

  /** An item is taken out of its bucket's chain; before is the item in front of it. */
  method Unchain(table: array<Item?>, x: Item, before: Item?, ghost items: seq<Item>, ghost i: nat, ghost j: nat)
    requires table.Length > 0 && Apart(items) && i < |items| && items[i] == x
    requires ChainsOk(table, items)
    requires var chain := Bucket(items, table.Length, x.key % table.Length);
      j < |chain| && chain[j] == x && before == At(chain, j - 1)
    modifies table, items`next
    ensures ChainsOk(table, Cut(items, i))
  {
    ghost var size := table.Length;
    var b := x.key % table.Length;
    ghost var chain := Bucket(items, size, b);
    CutChain(table, x, before, items, j);
    hide Bucket, Chained;
    forall c | 0 <= c < size
      ensures ChainOk(table, Cut(items, i), c)
    {
      assert c != b ==> ChainOk(table, items, c);
      BucketCut(items, size, i, c, j);
    }
  }

  method CutChain(table: array<Item?>, x: Item, before: Item?, ghost items: seq<Item>, ghost j: nat)
    requires table.Length > 0 && Apart(items)
    requires ChainsOk(table, items)
    requires var chain := Bucket(items, table.Length, x.key % table.Length);
      j < |chain| && chain[j] == x && before == At(chain, j - 1)
    modifies table, items`next
    ensures Chained(table[x.key % table.Length], Cut(Bucket(items, table.Length, x.key % table.Length), j))
    ensures forall c :: 0 <= c < table.Length && c != x.key % table.Length ==> ChainOk(table, items, c)
  {
    ghost var size := table.Length;
    var b := x.key % table.Length;
    ghost var chain := Bucket(items, size, b);
    assert ChainOk(table, items, b);
    BucketApart(items, size, b);
    assert x.next == NextsOf(chain)[j];
    if before != null {
      assert before in items;
      SetNext(before, x.next, chain, j - 1);
    } else {
      table[b] := x.next;
    }
    ChainedCut(table[b], chain, j);
    hide Bucket;
    forall c | 0 <= c < size && c != b
      ensures ChainOk(table, items, c)
    {
      assert old(ChainOk(table, items, c));
      ghost var other := Bucket(items, size, c);
      assert NextsOf(other) == old(NextsOf(other));
    }
  }

  /** The list through all items does not notice changes to the chains. */
  method ChainIn(table: array<Item?>, x: Item, first: Item?, ghost items: seq<Item>)
    requires table.Length > 0 && x !in items && ChainsOk(table, items) && Listed(first, items)
    modifies table, x`next
    ensures ChainsOk(table, [x] + items) && Listed(first, items)
  {
    hide ChainsOk;
    PushChain(table, x, items);
    assert LNextsOf(items) == old(LNextsOf(items)) && LPrevsOf(items) == old(LPrevsOf(items));
  }

  method ChainOut(table: array<Item?>, x: Item, before: Item?, first: Item?,
                  ghost items: seq<Item>, ghost i: nat, ghost j: nat)
    requires table.Length > 0 && i < |items| && items[i] == x && ChainsOk(table, items) && Listed(first, items)
    requires var chain := Bucket(items, table.Length, x.key % table.Length);
      j < |chain| && chain[j] == x && before == At(chain, j - 1)
    modifies table, items`next
    ensures ChainsOk(table, Cut(items, i)) && Listed(first, items)
  {
    hide ChainsOk;
    Unchain(table, x, before, items, i, j);
    assert LNextsOf(items) == old(LNextsOf(items)) && LPrevsOf(items) == old(LPrevsOf(items));
  }

  /** The chains do not notice changes to the list through all items. */
  method ListIn(table: array<Item?>, x: Item, first: Item?, ghost items: seq<Item>)
    requires table.Length > 0 && ChainsOk(table, [x] + items) && Listed(first, items)
    requires x !in items && x.lnext == first && x.lprev == null && x.live
    requires forall i :: 0 <= i < |items| ==> items[i].key != x.key
    modifies if first == null then {} else {first}`lprev
    ensures ChainsOk(table, [x] + items) && Listed(x, [x] + items)
  {
    Prepend(x, first, items);
    hide Listed, Bucket;
    forall c | 0 <= c < table.Length
      ensures ChainOk(table, [x] + items, c)
    {
      assert old(ChainOk(table, [x] + items, c));
      ghost var chain := Bucket([x] + items, table.Length, c);
      assert NextsOf(chain) == old(NextsOf(chain));
    }
  }

  /** Neither of them notices what the items hold. */
  method Store(table: array<Item?>, x: Item, addrs: nat, first: Item?, ghost items: seq<Item>)
    requires table.Length > 0 && ChainsOk(table, items) && Listed(first, items)
    modifies x`addrs
    ensures ChainsOk(table, items) && Listed(first, items) && x.addrs == addrs
  {
    x.addrs := addrs;
    assert LNextsOf(items) == old(LNextsOf(items)) && LPrevsOf(items) == old(LPrevsOf(items));
    hide Listed, Bucket;
    forall c | 0 <= c < table.Length
      ensures ChainOk(table, items, c)
    {
      assert old(ChainOk(table, items, c));
      ghost var chain := Bucket(items, table.Length, c);
      assert NextsOf(chain) == old(NextsOf(chain));
    }
  }

  method ListOut(table: array<Item?>, x: Item, first: Item?, ghost items: seq<Item>, ghost i: nat)
    returns (first': Item?)
    requires table.Length > 0 && i < |items| && items[i] == x && ChainsOk(table, Cut(items, i)) && Listed(first, items)
    modifies items`lnext, items`lprev, x`live
    ensures ChainsOk(table, Cut(items, i)) && Listed(first', Cut(items, i)) && !x.live
  {
    ghost var rest := Cut(items, i);
    first' := Unlist(x, first, items, i);
    hide Listed, Bucket;
    forall c | 0 <= c < table.Length
      ensures ChainOk(table, rest, c)
    {
      assert old(ChainOk(table, rest, c));
      ghost var chain := Bucket(rest, table.Length, c);
      assert NextsOf(chain) == old(NextsOf(chain));
    }
  }

  /** The chains of all buckets. */
  ghost predicate ChainsOk(table: array<Item?>, items: seq<Item>)
    requires table.Length > 0
    reads table, items
  {
    forall b :: 0 <= b < table.Length ==> ChainOk(table, items, b)
  }

  /** ape_htable_t */
  class HashTable {
    const table: array<Item?>
    var first: Item?
    /** The items, newest first. */
    ghost var items: seq<Item>

    ghost predicate Valid()
      reads this, table, items
    {
      && table.Length > 0 && Listed(first, items)
      && ChainsOk(table, items)
    }

    ghost function Own(): set<Item>
      reads this
    {
      set x | x in items
    }

    ghost function Contents(): seq<Entry>
      reads this, items
    {
      Entries(items)
    }

    /** hashtbl_init_with_size */
    constructor (size: nat)
      requires size > 0
      ensures Valid() && fresh(table) && Contents() == [] && Own() == {}
    {
      table := new Item?[size](i => null);
      first := null;
      items := [];
      new;
      assert LNextsOf([]) == Nexts([]) && LPrevsOf([]) == Prevs([]) && NextsOf([]) == Nexts([]);
      assert forall b :: 0 <= b < table.Length ==> ChainOk(table, items, b);
    }

    /** The loop along a bucket's chain that looks for a key. */
    method Find(key: nat) returns (x: Item?, ghost j: nat)
      requires Valid()
      ensures var chain := Bucket(items, table.Length, key % table.Length);
        x == At(chain, j) && (x == null ==> j == |chain|)
      ensures x == null ==> forall i :: 0 <= i < |items| ==> items[i].key != key
      ensures x != null ==> x in items && x.key == key
    {
      var b := key % table.Length;
      ghost var chain := Bucket(items, table.Length, b);
      assert ChainOk(table, items, b);
      x := table[b];
      j := 0;
      while x != null
        invariant 0 <= j <= |chain| && x == At(chain, j)
        invariant forall i :: 0 <= i < j ==> chain[i].key != key
        decreases |chain| - j
      {
        assert x in items;
        if x.key == key {
          return;
        }
        assert x.next == NextsOf(chain)[j];
        x := x.next;
        j := j + 1;
      }
      forall i | 0 <= i < |items|
        ensures items[i].key != key
      {
        assert items[i] in chain || !Belongs(items[i], table.Length, b);
      }
    }

    /** hashtbl_seek64 */
    method Seek(key: nat) returns (addrs: nat)
      requires Valid()
      ensures addrs == Lookup(Contents(), key)
    {
      var x, j := Find(key);
      if x == null {
        LookupAbsent(Contents(), key);
        return NULL;
      }
      ghost var i :| 0 <= i < |items| && items[i] == x;
      LookupAt(Contents(), i);
      addrs := x.addrs;
    }

    /** A new item becomes the first one of the list and of its bucket. */
    method Link(x: Item)
      requires Valid() && x !in items && x.lnext == first && x.lprev == null && x.live
      requires forall i :: 0 <= i < |items| ==> items[i].key != x.key
      modifies this`first, this`items, table, x`next, if first == null then {} else {first}`lprev
      ensures Valid() && items == [x] + old(items) && Contents() == [Entry(x.key, x.addrs)] + old(Contents())
    {
      ghost var before, es := items, Contents();
      hide Listed, ChainsOk;
      ChainIn(table, x, first, before);
      ListIn(table, x, first, before);
      first := x;
      items := [x] + before;
      assert Entries(items) == [Entry(x.key, x.addrs)] + es;
    }

    /** The addrs of an item is changed. */
    method SetAddrs(x: Item, addrs: nat)
      requires Valid() && x in items
      modifies x`addrs
      ensures Valid() && Contents() == Replaced(old(Contents()), x.key, addrs) && Has(old(Contents()), x.key)
    {
      ghost var i :| 0 <= i < |items| && items[i] == x;
      ghost var es := Contents();
      assert es[i].key == x.key;
      assert KeysUnique(items);
      hide Listed, ChainsOk;
      Store(table, x, addrs, first, items);
      assert Contents() == Replaced(es, x.key, addrs);
    }

    /** hashtbl_append64 */
    method Append(key: nat, addrs: nat)
      requires Valid()
      modifies this`first, this`items, table, Own()
      ensures Valid() && Contents() == Appended(old(Contents()), key, addrs) && fresh(Own() - old(Own()))
    {
      var x := new Item(key, addrs, first);
      var found, j := Find(key);
      ghost var es := Contents();
      if found != null {
        x.live := false;
        SetAddrs(found, addrs);
        return;
      }
      Link(x);
    }

    /** The loop that also keeps the item in front. */
    method FindBefore(key: nat) returns (x: Item?, before: Item?, ghost j: nat)
      requires Valid()
      ensures var chain := Bucket(items, table.Length, key % table.Length);
        x == At(chain, j) && (x != null ==> j < |chain| && before == At(chain, j - 1))
      ensures x == null ==> forall i :: 0 <= i < |items| ==> items[i].key != key
      ensures x != null ==> x in items && x.key == key
    {
      var b := key % table.Length;
      ghost var chain := Bucket(items, table.Length, b);
      assert ChainOk(table, items, b);
      hide Listed, ChainsOk, Bucket;
      x, before := table[b], null;
      j := 0;
      while x != null
        invariant 0 <= j <= |chain| && x == At(chain, j) && before == At(chain, j - 1)
        invariant forall i :: 0 <= i < j ==> chain[i].key != key
        decreases |chain| - j
      {
        assert x in items;
        if x.key == key {
          return;
        }
        assert x.next == NextsOf(chain)[j];
        before, x := x, x.next;
        j := j + 1;
      }
      forall i | 0 <= i < |items|
        ensures items[i].key != key
      {
        assert items[i] in chain || !Belongs(items[i], table.Length, b);
      }
    }

    /** An item is taken out of its chain and out of the list, and freed. */
    method Unlink(x: Item, before: Item?, ghost i: nat, ghost j: nat)
      requires Valid() && i < |items| && items[i] == x
      requires var chain := Bucket(items, table.Length, x.key % table.Length);
        j < |chain| && chain[j] == x && before == At(chain, j - 1)
      modifies this`first, this`items, table, items`next, items`lnext, items`lprev, x`live
      ensures Valid() && items == Cut(old(items), i) && Contents() == Cut(old(Contents()), i) && !x.live
    {
      ghost var all, es := items, Contents();
      hide Listed, ChainsOk, Bucket;
      ChainOut(table, x, before, first, all, i, j);
      first := ListOut(table, x, first, all, i);
      items := Cut(all, i);
      assert Entries(items) == Cut(es, i);
    }

    /** hashtbl_erase64 */
    method Erase(key: nat)
      requires Valid()
      modifies this`first, this`items, table, Own()
      ensures Valid() && Contents() == Erased(old(Contents()), key) && Own() <= old(Own())
    {
      var x, before, j := FindBefore(key);
      if x == null {
        LookupAbsent(Contents(), key);
        return;
      }
      hide *;
      EraseItem(x, before, j);
    }

    /** An item is found. */
    method EraseItem(x: Item, before: Item?, ghost j: nat)
      requires Valid() && x in items
      requires var chain := Bucket(items, table.Length, x.key % table.Length);
        j < |chain| && chain[j] == x && before == At(chain, j - 1)
      modifies this`first, this`items, table, Own()
      ensures Valid() && Contents() == Erased(old(Contents()), x.key) && Own() <= old(Own())
    {
      ghost var i :| 0 <= i < |items| && items[i] == x;
      ErasedAt(Contents(), i);
      hide Listed, ChainsOk, Bucket, Erased;
      Unlink(x, before, i, j);
    }

    method Perform(op: Op)
      requires Valid()
      modifies this`first, this`items, table, Own()
      ensures Valid() && Contents() == Step(old(Contents()), op) && fresh(Own() - old(Own()))
    {
      hide Valid, Contents, Appended, Erased;
      match op
      case Append(key, addrs) => Append(key, addrs);
      case Erase(key) => Erase(key);
    }
  }

  ghost predicate ChainOk(table: array<Item?>, items: seq<Item>, b: nat)
    requires b < table.Length
    reads table, items
  {
    Chained(table[b], Bucket(items, table.Length, b))
  }

  /** Every item is on one chain only, and there once: that of its key. */
  lemma OnOneChain(items: seq<Item>, size: nat, x: Item)
    requires size > 0 && Apart(items) && x in items
    ensures x in Bucket(items, size, x.key % size) && Apart(Bucket(items, size, x.key % size))
    ensures forall b: nat :: x in Bucket(items, size, b) ==> b == x.key % size
  {
    BucketApart(items, size, x.key % size);
    var i :| 0 <= i < |items| && items[i] == x;
    assert Belongs(items[i], size, x.key % size);
  }

  /** Any calls on a new table, and a final look. */
  method Play(size: nat, ops: seq<Op>, key: nat) returns (addrs: nat)
    requires size > 0
    ensures addrs == if key in Meaning(ops) then Meaning(ops)[key] else NULL
  {
    var t := new HashTable(size);
    var i := 0;
    hide HashTable.Valid, HashTable.Contents, Step;
    while i < |ops|
      invariant 0 <= i <= |ops|
      invariant t.Valid() && fresh(t) && fresh(t.table) && fresh(t.Own())
      invariant t.Contents() == Run(ops[..i])
    {
      assert ops[..i + 1][..i] == ops[..i];
      t.Perform(ops[i]);
      i := i + 1;
    }
    assert ops[..i] == ops;
    addrs := t.Seek(key);
    TableIsMap(ops);
  }
}
