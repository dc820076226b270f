/** txList: one account's transactions, with cached cost and gas caps. */
module TxLists {
  import opened Transactions
  import opened SortedMap
  import Heap

  /** The price rule a replacement must meet: better in both prices, by the bump percentage. */
  predicate Replaces(prev: Tx, tx: Tx, priceBump: nat) {
    && prev.feeCap < tx.feeCap && prev.tipCap < tx.tipCap
    && tx.feeCap >= (100 + priceBump) * prev.feeCap / 100
    && tx.tipCap >= (100 + priceBump) * prev.tipCap / 100
  }

  /** What a replacement must offer, in the prices themselves: more than the old transaction in
      both, and within a hundredth of the bumped price at least. */
  lemma ReplacesMeans(prev: Tx, tx: Tx, priceBump: nat)
    ensures Replaces(prev, tx, priceBump) <==>
      && tx.feeCap > prev.feeCap && tx.tipCap > prev.tipCap
      && 100 * tx.feeCap + 99 >= prev.feeCap * (100 + priceBump)
      && 100 * tx.tipCap + 99 >= prev.tipCap * (100 + priceBump)
  {
    Thresholds((100 + priceBump) * prev.feeCap, tx.feeCap);
    Thresholds((100 + priceBump) * prev.tipCap, tx.tipCap);
    assert (100 + priceBump) * prev.feeCap == prev.feeCap * (100 + priceBump);
    assert (100 + priceBump) * prev.tipCap == prev.tipCap * (100 + priceBump);
  }

  lemma Thresholds(n: nat, x: nat)
    ensures x >= n / 100 <==> 100 * x + 99 >= n
  {}

  predicate Payable(tx: Tx, costLimit: nat, gasLimit: nat) {
    tx.gas <= gasLimit && tx.Cost() <= costLimit
  }

  function Payables(m: Items, costLimit: nat, gasLimit: nat): Items {
    map n | n in m && Payable(m[n], costLimit, gasLimit) :: m[n]
  }

  function Unpayables(m: Items, costLimit: nat, gasLimit: nat): Items {
    map n | n in m && !Payable(m[n], costLimit, gasLimit) :: m[n]
  }

  ghost predicate Bound(m: Items, cost: nat, gas: nat) {
    forall n :: n in m ==> Payable(m[n], cost, gas)
  }

  /** What Filter leaves: the payable ones, and of a strict list only those before the first
      unpayable one. */
  function Kept(m: Items, strict: bool, costLimit: nat, gasLimit: nat): Items {
    var bad := Unpayables(m, costLimit, gasLimit);
    var good := Payables(m, costLimit, gasLimit);
    if strict && bad != map[] then Below(good, MinKey(bad)) else good
  }

  /** The payable transactions a strict list gives up because a lower nonce went. */
  function Invalidated(m: Items, strict: bool, costLimit: nat, gasLimit: nat): Items {
    var bad := Unpayables(m, costLimit, gasLimit);
    if strict && bad != map[] then From(Payables(m, costLimit, gasLimit), MinKey(bad)) else map[]
  }

  /** Removed, invalidated and remaining transactions partition the old list. */
  lemma FilterPartition(m: Items, strict: bool, costLimit: nat, gasLimit: nat)
    ensures var k, i, u := Kept(m, strict, costLimit, gasLimit), Invalidated(m, strict, costLimit, gasLimit), Unpayables(m, costLimit, gasLimit);
      && k.Keys !! i.Keys !! u.Keys
      && k + i + u == m
      && forall n :: n in k ==> Payable(k[n], costLimit, gasLimit)
  {
    var k, i, u := Kept(m, strict, costLimit, gasLimit), Invalidated(m, strict, costLimit, gasLimit), Unpayables(m, costLimit, gasLimit);
    assert k + i + u == m;
  }

  /** The nonces of m are exactly [s, e). */
  ghost predicate Interval(m: Items, s: nat, e: nat) {
    forall n: uint64 :: n in m <==> s <= n < e
  }

  /** A strict contiguous list stays a contiguous prefix: it ends at its first unpayable nonce. */
  lemma FilterContiguous(m: Items, s: nat, e: nat, costLimit: nat, gasLimit: nat)
    requires Interval(m, s, e)
    ensures var u := Unpayables(m, costLimit, gasLimit);
            Interval(Kept(m, true, costLimit, gasLimit), s, if u == map[] then e else MinKey(u))
  {
    var u := Unpayables(m, costLimit, gasLimit);
    forall n: uint64 ensures n in Kept(m, true, costLimit, gasLimit) <==> s <= n < if u == map[] then e else MinKey(u) {
      if n in m && u != map[] && n < MinKey(u) {
        assert n !in u;
      }
      if n in m && u == map[] {
        assert n !in u;
      }
    }
  }

  /** A flattened list lists its map, so the two ways of naming what was taken agree. */
  lemma FlatLists(s: seq<Tx>, m: Items)
    requires IsFlat(s, m)
    ensures Lists(s, m)
  {
    FlatCovers(s, m);
  }

  class TxList {
    const strict: bool
    const txs: TxSortedMap
    var costcap: nat
    var gascap: nat

    /** The caps bound every member. */
    ghost predicate CapsBound() reads this, txs {
      Bound(txs.items, costcap, gascap)
    }

    ghost predicate Valid() reads this, txs {
      txs.Valid() && CapsBound()
    }

    constructor (strict: bool)
      ensures Valid() && this.strict == strict && txs.items == map[] && fresh(txs)
    {
      this.strict := strict;
      txs := new TxSortedMap();
      costcap, gascap := 0, 0;
    }

    method Overlaps(tx: Tx) returns (r: bool)
      ensures r == (tx.nonce in txs.items)
    {
      var prev := txs.Get(tx.nonce);
      r := prev.Some?;
    }

    method Add(tx: Tx, priceBump: nat) returns (inserted: bool, prev: Option<Tx>)
      requires Valid()
      modifies this, txs
      ensures Valid()
      ensures var m := old(txs.items);
        if tx.nonce in m && !Replaces(m[tx.nonce], tx, priceBump) then
          !inserted && prev == None && txs.items == m
        else
          inserted && prev == (if tx.nonce in m then Some(m[tx.nonce]) else None) && txs.items == m[tx.nonce := tx]
    {
      ghost var m := txs.items;
      prev := txs.Get(tx.nonce);
      if prev.Some? {
        if prev.value.feeCap >= tx.feeCap || prev.value.tipCap >= tx.tipCap {
          return false, None;
        }
        var thresholdFeeCap := (100 + priceBump) * prev.value.feeCap / 100;
        var thresholdTip := (100 + priceBump) * prev.value.tipCap / 100;
        if tx.feeCap < thresholdFeeCap || tx.tipCap < thresholdTip {
          return false, None;
        }
      }
      txs.Put(tx);
      if costcap < tx.Cost() {
        costcap := tx.Cost();
      }
      if gascap < tx.gas {
        gascap := tx.gas;
      }
      hide Replaces;
      inserted := true;
    }

    method Forward(threshold: nat) returns (removed: seq<Tx>)
      requires Valid()
      modifies txs
      ensures Valid() && txs.items == From(old(txs.items), threshold)
      ensures Lists(removed, Below(old(txs.items), threshold))
    {
      removed := txs.Forward(threshold);
      FlatLists(removed, Below(old(txs.items), threshold));
    }

    /** The short circuit on the caps loses nothing: the result is always the full filter's. */
    method Filter(costLimit: nat, gasLimit: nat) returns (removed: seq<Tx>, invalids: seq<Tx>)
      requires Valid()
      modifies this, txs
      ensures Valid()
      ensures txs.items == Kept(old(txs.items), strict, costLimit, gasLimit)
      ensures Lists(removed, Unpayables(old(txs.items), costLimit, gasLimit))
      ensures Lists(invalids, Invalidated(old(txs.items), strict, costLimit, gasLimit))
    {
      hide Lists, IsFlat, Below, From, Selected, Rejected, Kept, Invalidated, Unpayables, Payables, Payable, Bound, Heap.IsHeap;
      removed, invalids := [], [];
      ghost var m := txs.items;
      ListsNone();
      if costcap <= costLimit && gascap <= gasLimit {
        NothingUnpayable(m, strict, costLimit, gasLimit);
        return;
      }
      costcap, gascap := costLimit, gasLimit;
      var tooCostly := (t: Tx) => t.gas > gasLimit || t.Cost() > costLimit;
      removed := txs.Filter(tooCostly);
      ghost var bad := Unpayables(m, costLimit, gasLimit);
      FilteredOut(m, costLimit, gasLimit, tooCostly);
      FilterShape(m, strict, costLimit, gasLimit, removed);
      if |removed| == 0 {
        return;
      }
      if strict {
        var lowest := LowestNonce(removed, bad);
        var above := (t: Tx) => t.nonce > lowest;
        AboveOut(txs.items, txs.items, lowest, above);
        invalids := txs.FilterRaw(above);
      }
      txs.Reheap();
    }

    method Cap(threshold: nat) returns (drops: seq<Tx>)
      requires Valid()
      modifies txs
      ensures Valid() && txs.items == Lowest(old(txs.items), threshold)
      ensures DroppedTop(drops, old(txs.items), |txs.items|)
    {
      drops := txs.Cap(threshold);
    }

    /** Removal goes by nonce; a strict list also gives up everything above it. */
    method Remove(tx: Tx) returns (found: bool, invalids: seq<Tx>)
      requires Valid()
      modifies txs
      ensures Valid() && found == (tx.nonce in old(txs.items))
      ensures var m := old(txs.items);
        txs.items == if !found then m else if strict then Below(m, tx.nonce) else Delete(m, tx.nonce)
      ensures Lists(invalids, if found && strict then From(old(txs.items), tx.nonce + 1) else map[])
    {
      hide Lists, IsFlat, Below, From, Delete, Selected, Rejected, Bound, Heap.IsHeap, Indexed, TxSortedMap.Valid;
      IndexedOf(txs);
      RemoveBound(txs.items, tx.nonce, costcap, gascap);
      ghost var m := txs.items;
      ListsNone();
      var removed := txs.Remove(tx.nonce);
      if !removed {
        return false, [];
      }
      if strict {
        invalids := DropAbove(txs, tx.nonce, m);
        return true, invalids;
      }
      return true, [];
    }

    method Ready(start: nat) returns (ready: seq<Tx>)
      requires Valid()
      modifies txs
      ensures Valid() && IsReady(ready, txs.items, old(txs.items), start)
    {
      ready := txs.Ready(start);
    }
  }

  lemma NothingUnpayable(m: Items, strict: bool, costLimit: nat, gasLimit: nat)
    requires exists c: nat, g: nat :: c <= costLimit && g <= gasLimit && Bound(m, c, g)
    ensures Unpayables(m, costLimit, gasLimit) == map[] && Kept(m, strict, costLimit, gasLimit) == m
    ensures Invalidated(m, strict, costLimit, gasLimit) == map[]
  {}

  /** How the outcome of the first pass decides what Filter keeps. */
  lemma FilterShape(m: Items, strict: bool, costLimit: nat, gasLimit: nat, removed: seq<Tx>)
    requires Lists(removed, Unpayables(m, costLimit, gasLimit)) && Indexed(m)
    ensures Indexed(Unpayables(m, costLimit, gasLimit))
    ensures var bad, good := Unpayables(m, costLimit, gasLimit), Payables(m, costLimit, gasLimit);
      && (|removed| == 0 <==> bad == map[])
      && (bad == map[] ==> good == m)
      && (bad == map[] || !strict ==> Kept(m, strict, costLimit, gasLimit) == good && Invalidated(m, strict, costLimit, gasLimit) == map[])
      && (bad != map[] && strict ==>
            && MinKey(bad) !in good
            && Kept(m, strict, costLimit, gasLimit) == Below(good, MinKey(bad))
            && Invalidated(m, strict, costLimit, gasLimit) == From(good, MinKey(bad)))
    ensures Bound(Payables(m, costLimit, gasLimit), costLimit, gasLimit)
    ensures Bound(Kept(m, strict, costLimit, gasLimit), costLimit, gasLimit)
  {
    var bad := Unpayables(m, costLimit, gasLimit);
    if bad == map[] {
      forall n | n in m ensures Payable(m[n], costLimit, gasLimit) { assert n !in bad; }
      assert |removed| == |bad.Keys|;
    } else {
      assert |bad.Keys| > 0;
    }
  }

  /** Takes out what lies above a nonce that has just gone. */
  method DropAbove(txs: TxSortedMap, nonce: uint64, ghost m: Items) returns (invalids: seq<Tx>)
    requires txs.Valid() && Indexed(m) && txs.items == Delete(m, nonce)
    modifies txs
    ensures txs.Valid() && txs.items == Below(m, nonce) && Lists(invalids, From(m, nonce + 1))
  {
    hide *;
    var above := (t: Tx) => t.nonce > nonce;
    AboveOut(m, txs.items, nonce, above);
    invalids := txs.Filter(above);
  }

  lemma IndexedOf(txs: TxSortedMap)
    requires txs.Valid()
    ensures Indexed(txs.items)
  {}

  lemma RemoveBound(m: Items, n: uint64, cost: nat, gas: nat)
    requires Bound(m, cost, gas)
    ensures Bound(Below(m, n), cost, gas) && Bound(Delete(m, n), cost, gas)
  {}

  lemma ListsNone()
    ensures Lists([], map[])
  {}

  lemma FilteredOut(m: Items, costLimit: nat, gasLimit: nat, f: Tx -> bool)
    requires forall t :: f(t) <==> t.gas > gasLimit || t.Cost() > costLimit
    ensures Rejected(m, f) == Payables(m, costLimit, gasLimit)
    ensures Selected(m, f) == Unpayables(m, costLimit, gasLimit)
  {}

  method LowestNonce(removed: seq<Tx>, ghost bad: Items) returns (lowest: uint64)
    requires Lists(removed, bad) && Indexed(bad) && |removed| > 0
    ensures bad != map[] && lowest == MinKey(bad)
  {
    lowest := MAX_UINT64;
    var i := 0;
    while i < |removed|
      invariant 0 <= i <= |removed|
      invariant lowest == MAX_UINT64 || exists k :: 0 <= k < i && removed[k].nonce == lowest
      invariant forall k :: 0 <= k < i ==> lowest <= removed[k].nonce
    {
      if lowest > removed[i].nonce {
        lowest := removed[i].nonce;
      }
      i := i + 1;
    }
    LowestIsMin(removed, bad, lowest);
  }

  lemma LowestIsMin(removed: seq<Tx>, bad: Items, lowest: uint64)
    requires Lists(removed, bad) && Indexed(bad) && |removed| > 0
    requires lowest == MAX_UINT64 || exists k :: 0 <= k < |removed| && removed[k].nonce == lowest
    requires forall k :: 0 <= k < |removed| ==> lowest <= removed[k].nonce
    ensures bad != map[] && lowest == MinKey(bad)
  {
    assert removed[0] in removed;
    assert removed[0].nonce in bad;
    assert lowest == MAX_UINT64 ==> removed[0].nonce == lowest;
    forall n | n in bad ensures lowest <= n {
      assert bad[n] in removed;
    }
    if lowest != MAX_UINT64 {
      var k :| 0 <= k < |removed| && removed[k].nonce == lowest;
      assert removed[k] in removed;
    }
  }

  lemma AboveOut(m: Items, d: Items, n: uint64, f: Tx -> bool)
    requires Indexed(m) && (d == Delete(m, n) || (d == m && n !in m))
    requires forall t :: f(t) <==> t.nonce > n
    ensures Rejected(d, f) == Below(m, n)
    ensures Selected(d, f) == From(m, n + 1)
    ensures n !in m ==> From(m, n + 1) == From(m, n)
  {}
}
