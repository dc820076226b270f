/** txSortedMap: a nonce-to-transaction map with a heap of nonces and a cached order. */
module SortedMap {
  import opened Transactions
  import Heap

  predicate NonceLess(a: uint64, b: uint64) { a < b }

  predicate TxNonceLess(a: Tx, b: Tx) { a.nonce < b.nonce }

  lemma NonceOrders()
    ensures Heap.StrictWeak(NonceLess) && Heap.StrictWeak(TxNonceLess)
  {}

  lemma KeysMinus(m: Items, k: uint64)
    requires k in m
    ensures multiset(Delete(m, k).Keys) == multiset(m.Keys) - multiset{k}
  {
    assert Delete(m, k).Keys == m.Keys - {k};
  }

  lemma FlatFirst(s: seq<Tx>, m: Items)
    requires IsFlat(s, m) && |s| > 0
    ensures m != map[] && s[0].nonce == MinKey(m)
    ensures IsFlat(s[1..], Delete(m, MinKey(m)))
  {
    FlatLeast(s, m);
    WithoutKey(m, s[0].nonce);
    hide Indexed;
  }

  lemma FlatLeast(s: seq<Tx>, m: Items)
    requires IsFlat(s, m) && |s| > 0
    ensures s[0].nonce in m && forall n :: n in m ==> s[0].nonce <= n
  {
    FlatCovers(s, m);
    forall n | n in m ensures s[0].nonce <= n {
      var i :| 0 <= i < |s| && s[i] == m[n];
      assert s[i].nonce == n;
    }
  }

  /** Moving the least remaining entry of m over to the taken front. */
  lemma PopFront(m: Items, k: nat, n: uint64, s: seq<Tx>)
    requires Indexed(m) && From(m, k) != map[] && n == MinKey(From(m, k)) && IsFlat(s, Below(m, k))
    ensures From(m, n + 1) == Delete(From(m, k), n) && k <= n
    ensures IsFlat(s + [m[n]], Below(m, n + 1))
  {
    CutStep(m, k, n);
    FlatSnoc(s, Below(m, k), m[n]);
  }

  lemma CutStep(m: Items, k: nat, n: uint64)
    requires From(m, k) != map[] && n == MinKey(From(m, k))
    ensures From(m, n + 1) == Delete(From(m, k), n) && k <= n && n in m
    ensures Below(m, n + 1) == Below(m, k)[n := m[n]]
  {
    assert n in From(m, k);
    forall j | j in m && k <= j && j != n ensures j > n { assert j in From(m, k); }
  }

  lemma FlatSnoc(s: seq<Tx>, m: Items, t: Tx)
    requires IsFlat(s, m) && forall n :: n in m ==> n < t.nonce
    ensures IsFlat(s + [t], m[t.nonce := t])
  {
    assert m[t.nonce := t].Keys == m.Keys + {t.nonce};
  }

  /** Nothing of m lies in [k, t). */
  lemma SameCut(m: Items, k: nat, t: nat)
    requires k <= t && (From(m, k) == map[] || t <= MinKey(From(m, k)))
    ensures From(m, t) == From(m, k) && Below(m, t) == Below(m, k)
  {
    forall n | n in m && k <= n ensures t <= n { assert n in From(m, k); }
  }

  lemma Twice<T>(s: seq<T>, i: nat, j: nat)
    requires i < j < |s| && s[i] == s[j]
    ensures multiset(s)[s[i]] >= 2
  {
    assert s == s[..i] + [s[i]] + s[i + 1..j] + [s[j]] + s[j + 1..];
  }

  lemma NoRepeats<T>(s: seq<T>, k: set<T>)
    requires multiset(s) == multiset(k)
    ensures forall i, j :: 0 <= i < j < |s| ==> s[i] != s[j]
    ensures forall x :: x in s <==> x in k
  {
    forall i, j | 0 <= i < j < |s| ensures s[i] != s[j] {
      if s[i] == s[j] { Twice(s, i, j); }
    }
    forall x ensures x in s <==> x in k { assert x in s <==> x in multiset(s); }
  }

  lemma {:induction false} SetMultiset<T>(s: seq<T>, k: set<T>)
    requires forall i, j :: 0 <= i < j < |s| ==> s[i] != s[j]
    requires forall x :: x in s <==> x in k
    ensures multiset(s) == multiset(k)
  {
    if |s| > 0 {
      var x := s[|s| - 1];
      var p := s[..|s| - 1];
      assert s == p + [x];
      forall y ensures y in p <==> y in k - {x} {
        assert y in s <==> y in p || y == x;
      }
      SetMultiset(p, k - {x});
      assert k == k - {x} + {x};
    } else {
      assert forall x :: x in k ==> x in s;
      assert k == {};
    }
  }

  /** The cached order after Cap drops m's top. */
  lemma FlatPrefix(s: seq<Tx>, m: Items, k: nat, drops: seq<Tx>)
    requires IsFlat(s, m) && DroppedTop(drops, m, k)
    ensures |drops| <= |s| && IsFlat(s[..|s| - |drops|], Lowest(m, k))
  {
    FlatTake(s, m, k);
  }

  lemma FlatSize(s: seq<Tx>, m: Items)
    requires IsFlat(s, m)
    ensures |s| == |m|
  {}

  lemma FlatLastIsMax(s: seq<Tx>, m: Items)
    requires IsFlat(s, m) && |s| > 0 && m != map[]
    ensures s[|s| - 1].nonce == MaxKey(m)
  {
    FlatLast(s, m);
  }

  lemma {:induction false} FlatTake(s: seq<Tx>, m: Items, k: nat)
    requires IsFlat(s, m) && k <= |s|
    ensures IsFlat(s[..k], Lowest(m, k))
    decreases |s|
  {
    hide IsFlat, Lowest, Delete;
    FlatSize(s, m);
    if k < |s| {
      FlatLast(s, m);
      LowestDropMax(m, k);
      FlatLastIsMax(s, m);
      FlatTake(s[..|s| - 1], Delete(m, MaxKey(m)), k);
      assert s[..|s| - 1][..k] == s[..k];
    } else {
      LowestAll(m, k);
      assert s[..k] == s;
    }
  }

  ghost function Firsts(index: seq<uint64>, size: nat): set<uint64>
    requires size <= |index|
  {
    set i | 0 <= i < size :: index[i]
  }

  ghost predicate Increasing(index: seq<uint64>) {
    forall i, j :: 0 <= i < j < |index| ==> index[i] < index[j]
  }

  /** In a sorted index the last live position holds the greatest nonce. */
  lemma LastIsMax(index: seq<uint64>, size: nat, m: Items)
    requires 0 < size <= |index| && Increasing(index) && m.Keys == Firsts(index, size)
    ensures m != map[] && index[size - 1] == MaxKey(m)
    ensures Delete(m, index[size - 1]).Keys == Firsts(index, size - 1)
  {
    assert index[size - 1] in m.Keys;
  }

  lemma SortedIndex(index: seq<uint64>, m: Items)
    requires multiset(index) == multiset(m.Keys)
    requires forall i, j :: 0 <= i < j < |index| ==> !NonceLess(index[j], index[i])
    ensures Increasing(index) && |index| == |m| && m.Keys == Firsts(index, |index|)
  {
    NoRepeats(index, m.Keys);
    assert |multiset(index)| == |index|;
  }

  /** drops is what Lowest(m, size) leaves out of m, highest nonce first. */
  ghost predicate DroppedTop(drops: seq<Tx>, m: Items, size: nat) {
    && size <= |m| && |drops| == |m| - size
    && (forall i :: 0 <= i < |drops| ==>
          drops[i].nonce in m && m[drops[i].nonce] == drops[i] && drops[i].nonce !in Lowest(m, size))
    && (forall i, j :: 0 <= i < j < |drops| ==> drops[i].nonce > drops[j].nonce)
  }

  ghost predicate CapReady(sorted: seq<uint64>, m: Items, size: nat, items: Items, drops: seq<Tx>) {
    && Increasing(sorted) && size <= |sorted| && |items| == size
    && Indexed(m) && Indexed(items) && items == Lowest(m, size) && items.Keys == Firsts(sorted, size)
    && DroppedTop(drops, m, size)
  }

  lemma CapStart(sorted: seq<uint64>, m: Items)
    requires Indexed(m) && multiset(sorted) == multiset(m.Keys)
    requires forall i, j :: 0 <= i < j < |sorted| ==> !NonceLess(sorted[j], sorted[i])
    ensures CapReady(sorted, m, |m|, m, [])
  {
    LowestAll(m, |m|);
    SortedIndex(sorted, m);
  }

  lemma CapNothing(m: Items, k: nat)
    requires |m| <= k
    ensures Lowest(m, k) == m && DroppedTop([], m, |m|)
  {
    LowestAll(m, k);
  }

  lemma CapStep(sorted: seq<uint64>, m: Items, size: nat, items: Items, drops: seq<Tx>, n: uint64)
    requires CapReady(sorted, m, size, items, drops) && size > 0 && n == sorted[size - 1]
    ensures n in items
    ensures forall tx :: tx == items[n] ==> CapReady(sorted, m, size - 1, Delete(items, n), drops + [tx])
  {
    LastIsMax(sorted, size, items);
    LowestStep(m, size);
    WithoutKey(items, n);
    CapDrops(m, size, items, drops);
    hide Lowest, DroppedTop, Firsts;
  }

  lemma CapDrops(m: Items, size: nat, items: Items, drops: seq<Tx>)
    requires items == Lowest(m, size) && items != map[] && Indexed(m)
    requires DroppedTop(drops, m, size) && size > 0 && Lowest(m, size - 1) == Delete(items, MaxKey(items))
    ensures DroppedTop(drops + [items[MaxKey(items)]], m, size - 1)
  {
    hide Lowest;
    LowestMeaning(m, size);
    LowestIn(m, size);
    var t := items[MaxKey(items)];
    assert t.nonce in items && t.nonce in m && m[t.nonce] == t;
    assert Lowest(m, size - 1).Keys <= items.Keys && t.nonce !in Lowest(m, size - 1);
    hide Delete;
    forall i | 0 <= i < |drops| ensures drops[i].nonce > t.nonce && drops[i].nonce !in Lowest(m, size - 1) {
      assert drops[i].nonce !in items;
    }
  }

  /** What Cap's loop leaves: the kept nonces, still to be heaped, and the dropped top. */
  lemma CapDone(sorted: seq<uint64>, m: Items, size: nat, items: Items, drops: seq<Tx>)
    requires CapReady(sorted, m, size, items, drops)
    ensures multiset(sorted[..size]) == multiset(items.Keys) && |items| == size
    ensures DroppedTop(drops, m, size)
  {
    SetMultiset(sorted[..size], items.Keys);
  }

  lemma SortedFlat(s: seq<Tx>, r: seq<Tx>, m: Items)
    requires |s| == |m| && multiset(r) == multiset(s) && |r| == |s|
    requires forall i :: 0 <= i < |s| ==> s[i].nonce in m && m[s[i].nonce] == s[i]
    requires forall i, j :: 0 <= i < j < |s| ==> s[i].nonce != s[j].nonce
    requires forall i, j :: 0 <= i < j < |r| ==> !TxNonceLess(r[j], r[i])
    ensures IsFlat(r, m)
  {
    var k := set t | t in s;
    SetMultiset(s, k);
    NoRepeats(r, k);
    forall i | 0 <= i < |r| ensures r[i].nonce in m && m[r[i].nonce] == r[i] {
      assert r[i] in r;
      var j :| 0 <= j < |s| && s[j] == r[i];
    }
  }

  /** The state of Forward's loop: everything of m below k was taken. */
  ghost predicate Forwarding(m: Items, k: nat, items: Items, removed: seq<Tx>) {
    Indexed(m) && items == From(m, k) && IsFlat(removed, Below(m, k))
  }

  lemma ForwardStart(m: Items)
    requires Indexed(m)
    ensures Forwarding(m, 0, m, [])
  {
    assert From(m, 0) == m;
  }

  lemma ForwardStep(m: Items, k: nat, was: Items, removed: seq<Tx>, n: uint64, tx: Tx, rest: Items)
    requires Forwarding(m, k, was, removed)
    requires was != map[] && n == MinKey(was) && tx == was[n] && rest == Delete(was, n)
    ensures Forwarding(m, n + 1, rest, removed + [tx])
  {
    PopFront(m, k, n, removed);
  }

  lemma ForwardDone(m: Items, k: nat, items: Items, removed: seq<Tx>, threshold: nat)
    requires Forwarding(m, k, items, removed) && k <= threshold && (items == map[] || threshold <= MinKey(items))
    ensures items == From(m, threshold) && IsFlat(removed, Below(m, threshold))
  {
    hide IsFlat;
    SameCut(m, k, threshold);
  }

  lemma BelowMin(m: Items, t: nat)
    requires Below(m, t) != map[]
    ensures m != map[] && MinKey(Below(m, t)) == MinKey(m)
    ensures Below(Delete(m, MinKey(m)), t) == Delete(Below(m, t), MinKey(m))
    ensures From(Delete(m, MinKey(m)), t) == From(m, t)
  {
    assert MinKey(Below(m, t)) in m;
    assert MinKey(m) in Below(m, t);
  }

  lemma FlatEmpty(s: seq<Tx>, m: Items)
    requires IsFlat(s, m)
    ensures |s| == 0 <==> m == map[]
  {
    if |s| > 0 { assert s[0].nonce in m; }
  }

  lemma BelowNone(m: Items, t: nat)
    requires Below(m, t) == map[]
    ensures From(m, t) == m
  {
    forall n | n in m ensures n >= t { assert n < t ==> n in Below(m, t); }
  }

  /** Slicing the taken front off a flattened list leaves the rest flattened. */
  lemma {:induction false} FlatFront(s: seq<Tx>, m: Items, r: seq<Tx>, t: nat)
    requires IsFlat(s, m) && IsFlat(r, Below(m, t))
    ensures |r| <= |s| && IsFlat(s[|r|..], From(m, t))
    decreases |r|
  {
    hide *;
    FlatEmpty(r, Below(m, t));
    if |r| == 0 {
      BelowNone(m, t);
      assert s[0..] == s;
    } else {
      BelowMin(m, t);
      FlatEmpty(s, m);
      FlatFirst(r, Below(m, t));
      FlatFirst(s, m);
      FlatFront(s[1..], Delete(m, MinKey(m)), r[1..], t);
      assert s[1..][|r[1..]|..] == s[|r|..];
    }
  }

  /** What Ready(start) takes from m and what it leaves. */
  ghost predicate IsReady(ready: seq<Tx>, rest: Items, m: Items, start: nat) {
    if m == map[] || MinKey(m) > start then ready == [] && rest == m
    else
      && rest == From(m, RunEnd(m, MinKey(m)))
      && IsFlat(ready, Below(m, RunEnd(m, MinKey(m))))
      && |ready| == RunEnd(m, MinKey(m)) - MinKey(m)
  }

  /** The run from `first`, taken up to k. */
  ghost predicate RunTaken(ready: seq<Tx>, m: Items, first: uint64, k: nat) {
    && Indexed(m) && m != map[] && first == MinKey(m)
    && first <= k <= RunEnd(m, first)
    && IsFlat(ready, Below(m, k)) && |ready| == k - first
  }

  lemma RunStep(ready: seq<Tx>, m: Items, first: uint64, k: nat, next: uint64, was: Items, tx: Tx, rest: Items)
    requires RunTaken(ready, m, first, k) && was == From(m, k) && was != map[] && next == MinKey(was)
    requires if k <= MAX_UINT64 then next == k else next == 0
    requires tx == was[next] && rest == Delete(was, next)
    ensures next == k && rest == From(m, k + 1)
    ensures RunTaken(ready + [tx], m, first, k + 1)
  {
    assert next in From(m, k);
    PopFront(m, k, next, ready);
    RunClosed(m, first, k);
  }

  lemma RunStart(m: Items)
    requires Indexed(m) && m != map[]
    ensures RunTaken([], m, MinKey(m), MinKey(m)) && From(m, MinKey(m)) == m
  {
    assert Below(m, MinKey(m)) == map[];
  }

  lemma RunDone(ready: seq<Tx>, m: Items, first: uint64, k: nat, next: uint64)
    requires RunTaken(ready, m, first, k)
    requires if k <= MAX_UINT64 then next == k else next == 0
    requires From(m, k) != map[] ==> MinKey(From(m, k)) != next
    ensures k == RunEnd(m, first)
  {
    RunClosed(m, first, k);
  }

  lemma RunClosed(m: Items, first: uint64, k: nat)
    requires first <= k <= RunEnd(m, first)
    ensures k < RunEnd(m, first) <==> k <= MAX_UINT64 && k in From(m, k)
  {}

  /** What filtering has taken out of m so far. */
  ghost predicate Sifted(m: Items, left: Items, removed: seq<Tx>) {
    && Indexed(m) && left.Keys <= m.Keys && (forall n :: n in left ==> left[n] == m[n])
    && |removed| == |m| - |left|
    && (forall t :: t in removed <==> t.nonce in m && t.nonce !in left && m[t.nonce] == t)
  }

  lemma SiftOne(m: Items, left: Items, removed: seq<Tx>, n: uint64)
    requires Sifted(m, left, removed) && n in left
    ensures Sifted(m, Delete(left, n), removed + [left[n]]) && Delete(left, n).Keys == left.Keys - {n}
  {
    WithoutKey(left, n);
  }

  lemma SiftDone(m: Items, left: Items, removed: seq<Tx>, f: Tx -> bool)
    requires Sifted(m, left, removed) && forall n :: n in m ==> (n in left <==> !f(m[n]))
    ensures left == Rejected(m, f) && Indexed(left) && Lists(removed, Selected(m, f))
    ensures |removed| == 0 ==> left == m
  {
    var gone := Selected(m, f);
    SiftKeys(m, left, f);
    CountSplit(m, left, gone);
    SiftNone(m, left);
    assert forall t :: t in removed <==> t.nonce in gone && gone[t.nonce] == t;
    hide Selected, Rejected;
  }

  lemma SiftKeys(m: Items, left: Items, f: Tx -> bool)
    requires left.Keys <= m.Keys && (forall n :: n in left ==> left[n] == m[n]) && forall n :: n in m ==> (n in left <==> !f(m[n]))
    ensures left == Rejected(m, f) && left.Keys + Selected(m, f).Keys == m.Keys && left.Keys !! Selected(m, f).Keys
  {}

  lemma SiftNone(m: Items, left: Items)
    requires left.Keys <= m.Keys && forall n :: n in left ==> left[n] == m[n]
    ensures |left| == |m| ==> left == m
  {
    SubsetSize(left.Keys, m.Keys);
  }

  class TxSortedMap {
    var items: Items
    var index: seq<uint64>
    var cache: Option<seq<Tx>>

    ghost predicate Sound() reads this {
      && Indexed(items)
      && Heap.IsHeap(index, NonceLess)
      && multiset(index) == multiset(items.Keys)
    }

    ghost predicate Valid() reads this {
      Sound() && (cache.Some? ==> IsFlat(cache.value, items))
    }

    constructor ()
      ensures Valid() && items == map[]
    {
      items, index, cache := map[], [], None;
    }

    /** The index is empty just when the map is, and its head is the least nonce. */
    lemma IndexHead()
      requires Sound()
      ensures |index| == 0 <==> items == map[]
      ensures |index| > 0 ==> index[0] == MinKey(items)
    {
      if |index| > 0 {
        NonceOrders();
        Heap.HeadBelowAll(index, NonceLess);
        NoRepeats(index, items.Keys);
        assert index[0] in items.Keys;
      } else {
        assert forall n :: n in items ==> n in multiset(items.Keys);
      }
    }

    method Get(nonce: uint64) returns (tx: Option<Tx>)
      ensures tx == if nonce in items then Some(items[nonce]) else None
    {
      tx := if nonce in items then Some(items[nonce]) else None;
    }

    method Put(tx: Tx)
      requires Valid()
      modifies this
      ensures Valid() && items == old(items)[tx.nonce := tx]
    {
      NonceOrders();
      if tx.nonce !in items {
        index := Heap.Push(index, NonceLess, tx.nonce);
      }
      assert items[tx.nonce := tx].Keys == items.Keys + {tx.nonce};
      items, cache := items[tx.nonce := tx], None;
    }

    /** heap.Pop together with the delete that follows it everywhere. */
    method PopMin() returns (tx: Tx)
      requires Sound() && items != map[]
      modifies this`index, this`items
      ensures Sound() && tx == old(items)[MinKey(old(items))] && items == Delete(old(items), MinKey(old(items)))
      ensures |index| < old(|index|)
    {
      NonceOrders();
      IndexHead();
      var nonce;
      index, nonce := Heap.Pop(index, NonceLess);
      KeysMinus(items, nonce);
      tx := items[nonce];
      items := Delete(items, nonce);
    }

    method Forward(threshold: nat) returns (removed: seq<Tx>)
      requires Valid()
      modifies this
      ensures Valid() && items == From(old(items), threshold)
      ensures IsFlat(removed, Below(old(items), threshold))
    {
      hide IsFlat, Forwarding, From, Below, Delete, Indexed;
      ghost var m, k: nat := items, 0;
      removed := [];
      ForwardStart(m);
      IndexHead();
      while |index| > 0 && index[0] < threshold
        invariant Sound() && cache == old(cache) && k <= threshold
        invariant |index| == 0 <==> items == map[]
        invariant |index| > 0 ==> index[0] == MinKey(items)
        invariant Forwarding(m, k, items, removed)
        decreases |index|
      {
        ghost var was: Items, n: uint64 := items, index[0];
        var tx := PopMin();
        ForwardStep(m, k, was, removed, n, tx, items);
        removed, k := removed + [tx], n as nat + 1;
        IndexHead();
      }
      ForwardDone(m, k, items, removed, threshold);
      if cache.Some? {
        FlatFront(cache.value, m, removed, threshold);
        cache := Some(cache.value[|removed|..]);
      }
    }

    method Reheap()
      requires Indexed(items)
      modifies this`index, this`cache
      ensures Valid() && cache.None?
    {
      NonceOrders();
      index := [];
      var todo := items.Keys;
      while todo != {}
        invariant todo <= items.Keys && multiset(index) == multiset(items.Keys - todo)
        decreases todo
      {
        var nonce :| nonce in todo;
        index := index + [nonce];
        todo := todo - {nonce};
        assert items.Keys - todo == (items.Keys - (todo + {nonce})) + {nonce};
      }
      assert items.Keys - todo == items.Keys;
      index := Heap.Init(index, NonceLess);
      cache := None;
    }

    /** filter: drops what f selects and leaves the heap to be rebuilt. */
    method FilterRaw(f: Tx -> bool) returns (removed: seq<Tx>)
      requires Indexed(items)
      modifies this`items, this`cache
      ensures items == Rejected(old(items), f) && Indexed(items)
      ensures Lists(removed, Selected(old(items), f))
      ensures |removed| == 0 ==> items == old(items) && cache == old(cache)
      ensures |removed| > 0 ==> cache.None?
    {
      hide Selected, Rejected, Lists, Delete;
      ghost var m := items;
      removed := [];
      var todo := items.Keys;
      while todo != {}
        invariant todo <= items.Keys && Sifted(m, items, removed)
        invariant forall n :: n in m && n !in todo ==> (n in items <==> !f(m[n]))
        invariant cache == old(cache)
        decreases todo
      {
        var nonce :| nonce in todo;
        var tx := items[nonce];
        if f(tx) {
          SiftOne(m, items, removed, nonce);
          removed := removed + [tx];
          items := Delete(items, nonce);
        }
        todo := todo - {nonce};
      }
      SiftDone(m, items, removed, f);
      if |removed| > 0 {
        cache := None;
      }
    }

    method Filter(f: Tx -> bool) returns (removed: seq<Tx>)
      requires Valid()
      modifies this
      ensures Valid() && items == Rejected(old(items), f)
      ensures Lists(removed, Selected(old(items), f))
    {
      removed := FilterRaw(f);
      if |removed| > 0 {
        Reheap();
      }
    }

    method Cap(threshold: nat) returns (drops: seq<Tx>)
      requires Valid()
      modifies this
      ensures Valid() && items == Lowest(old(items), threshold)
      ensures DroppedTop(drops, old(items), |items|)
    {
      hide IsFlat, DroppedTop, Lowest, Firsts, Heap.IsHeap;
      drops := [];
      if |items| <= threshold {
        CapNothing(items, threshold);
        return;
      }
      NonceOrders();
      ghost var m := items;
      var sorted := Heap.Sort(index, NonceLess);
      CapStart(sorted, m);
      index := sorted;
      var size := |items|;
      while size > threshold
        invariant threshold <= size <= |m| && index == sorted && cache == old(cache)
        invariant CapReady(sorted, m, size, items, drops)
      {
        CapStep(sorted, m, size, items, drops, index[size - 1]);
        var tx := items[index[size - 1]];
        drops, items, size := drops + [tx], Delete(items, index[size - 1]), size - 1;
      }
      CapDone(sorted, m, threshold, items, drops);
      index := Heap.Init(index[..threshold], NonceLess);
      if cache.Some? {
        FlatPrefix(cache.value, m, threshold, drops);
        cache := Some(cache.value[..|cache.value| - |drops|]);
      }
    }

    method Remove(nonce: uint64) returns (found: bool)
      requires Valid()
      modifies this
      ensures Valid() && found == (nonce in old(items))
      ensures items == if found then Delete(old(items), nonce) else old(items)
    {
      hide IsFlat;
      if nonce !in items {
        return false;
      }
      NonceOrders();
      NoRepeats(index, items.Keys);
      var i := 0;
      while i < |index| && index[i] != nonce
        invariant 0 <= i <= |index| && nonce !in index[..i]
      {
        i := i + 1;
      }
      if i < |index| {
        index := Heap.Remove(index, NonceLess, i);
      }
      KeysMinus(items, nonce);
      items, cache := Delete(items, nonce), None;
      found := true;
    }

    /** Takes out the unbroken run that starts at the smallest nonce, when that is no
        later than `start`. */
    method Ready(start: nat) returns (ready: seq<Tx>)
      requires Valid()
      modifies this
      ensures Valid()
      ensures IsReady(ready, items, old(items), start)
    {
      hide IsFlat, From, Below;
      ready := [];
      IndexHead();
      if |index| == 0 || index[0] > start {
        return;
      }
      ghost var m := items;
      ghost var first := index[0];
      ghost var k: nat := index[0];
      RunStart(m);
      var next: uint64 := index[0];
      while |index| > 0 && index[0] == next
        invariant Sound() && (if k <= MAX_UINT64 then next == k else next == 0)
        invariant |index| == 0 <==> items == map[]
        invariant |index| > 0 ==> index[0] == MinKey(items)
        invariant items == From(m, k) && RunTaken(ready, m, first, k)
        decreases |index|
      {
        ghost var was: Items := items;
        var tx := PopMin();
        RunStep(ready, m, first, k, next, was, tx, items);
        ready := ready + [tx];
        next := if next == MAX_UINT64 then 0 else next + 1;
        k := k + 1;
        IndexHead();
      }
      RunDone(ready, m, first, k, next);
      cache := None;
    }

    method Flatten() returns (txs: seq<Tx>)
      requires Valid()
      modifies this`cache
      ensures Valid() && IsFlat(txs, items)
    {
      if cache.None? {
        NonceOrders();
        var s: seq<Tx> := [];
        var todo := items.Keys;
        while todo != {}
          invariant todo <= items.Keys && |s| == |items| - |todo|
          invariant forall i :: 0 <= i < |s| ==> s[i].nonce in items && s[i].nonce !in todo && items[s[i].nonce] == s[i]
          invariant forall i, j :: 0 <= i < j < |s| ==> s[i].nonce != s[j].nonce
          decreases todo
        {
          var nonce :| nonce in todo;
          s := s + [items[nonce]];
          todo := todo - {nonce};
        }
        var r := Heap.Sort(s, TxNonceLess);
        SortedFlat(s, r, items);
        cache := Some(r);
      }
      txs := cache.value;
    }

    method LastElement() returns (tx: Tx)
      requires Valid() && items != map[]
      modifies this`cache
      ensures Valid() && tx == items[MaxKey(items)]
    {
      var txs := Flatten();
      assert |items.Keys| > 0 by { var n :| n in items; }
      FlatLast(txs, items);
      tx := txs[|txs| - 1];
    }
  }
}
