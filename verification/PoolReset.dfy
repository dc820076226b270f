/** What a reset of the pool re-injects: the walk from the old head and the new one down to
    the block they share. */
module PoolResets {
  import opened Transactions
  import opened BlockTree
  import opened BlockChains

  /** The reset is given up, or goes on with these transactions to re-inject. */
  datatype Reinjection = Skipped | Reinject(txs: seq<TxHash>)

  const MAX_DEPTH: nat := 64

  /** The transactions of a list of blocks, block by block. */
  function TxsIn(t: Tree, chain: seq<Hash>): seq<TxHash>
    requires forall h :: h in chain ==> h in t
  {
    if chain == [] then [] else TxsIn(t, chain[..|chain| - 1]) + t[chain[|chain| - 1]].txs
  }

  /** a's members that are not in b, in a's order. */
  function Difference(a: seq<TxHash>, b: set<TxHash>): (r: seq<TxHash>)
    ensures forall tx :: tx in r <==> tx in a && tx !in b
  {
    if a == [] then []
    else Difference(a[..|a| - 1], b) + if a[|a| - 1] in b then [] else [a[|a| - 1]]
  }

  lemma DifferenceLast(a: seq<TxHash>, tx: TxHash, b: set<TxHash>)
    ensures Difference(a + [tx], b) == Difference(a, b) + if tx in b then [] else [tx]
    ensures Difference([], b) == []
  {
    assert (a + [tx])[..|a|] == a;
  }

  /** ... each as often as it is in a, one after the other as they are there. */
  lemma {:induction false} DifferenceJoins(x: seq<TxHash>, y: seq<TxHash>, b: set<TxHash>)
    ensures Difference(x + y, b) == Difference(x, b) + Difference(y, b)
  {
    hide Difference;
    DifferenceLast([], 0, b);
    if y == [] {
      assert x + y == x;
    } else {
      var k := |y| - 1;
      assert x + y == (x + y[..k]) + [y[k]] && y == y[..k] + [y[k]];
      DifferenceLast(x + y[..k], y[k], b);
      DifferenceLast(y[..k], y[k], b);
      DifferenceJoins(x, y[..k], b);
    }
  }

  /** Every block of h's path from number n up is stored. */
  ghost predicate Reaches(t: Tree, stored: set<Hash>, h: Hash, n: nat)
    requires WellFormed(t) && h in t
  {
    forall k: nat :: n <= k <= t[h].number ==> Ancestor(t, h, k) in stored
  }

  /** The new head does not just extend the old one, and their numbers are close. */
  predicate Shallow(t: Tree, oldHead: Option<Hash>, newHead: Hash)
    requires newHead in t && (oldHead.Some? ==> oldHead.value in t)
  {
    oldHead.Some? && oldHead.value != t[newHead].parent
    && t[oldHead.value].number <= t[newHead].number + MAX_DEPTH && t[newHead].number <= t[oldHead.value].number + MAX_DEPTH
  }

  /** What the walk finds: the transactions of the old branch that the new one lacks, unless
      a block of either branch is missing. */
  ghost function Found(t: Tree, stored: set<Hash>, oldHead: Option<Hash>, newHead: Hash): Reinjection
    requires WellFormed(t) && newHead in t && (oldHead.Some? ==> oldHead.value in t)
  {
    if !Shallow(t, oldHead, newHead) then Reinject([])
    else if oldHead.value !in stored then
      if t[newHead].number >= t[oldHead.value].number then Skipped else Reinject([])
    else
      var n := Fork(t, oldHead.value, newHead);
      if Reaches(t, stored, oldHead.value, n) && Reaches(t, stored, newHead, n)
      then Reinject(Difference(TxsIn(t, Path(t, oldHead.value, n)), TxsOf(t, Path(t, newHead, n))))
      else Skipped
  }

  /** A head that just extends the old one, a first head, and heads more than 64 numbers apart
      re-inject nothing. */
  lemma NothingFound(t: Tree, stored: set<Hash>, oldHead: Option<Hash>, newHead: Hash)
    requires WellFormed(t) && newHead in t && (oldHead.Some? ==> oldHead.value in t)
    requires || oldHead.None? || oldHead.value == t[newHead].parent
             || t[oldHead.value].number > t[newHead].number + 64 || t[newHead].number > t[oldHead.value].number + 64
    ensures Found(t, stored, oldHead, newHead) == Reinject([])
  {}

  /** TxDifference. */
  method TxDifference(a: seq<TxHash>, b: seq<TxHash>) returns (keep: seq<TxHash>)
    ensures keep == Difference(a, Members(b))
  {
    var remove := set tx | tx in b;
    keep := [];
    for i := 0 to |a|
      invariant keep == Difference(a[..i], Members(b))
    {
      assert a[..i + 1][..i] == a[..i];
      if a[i] !in remove {
        keep := keep + [a[i]];
      }
    }
    assert a[..|a|] == a;
  }

  /** Walks from h down to a number, collecting the transactions passed. */
  method Descend(t: Tree, stored: set<Hash>, h: Hash, number: nat) returns (at: Hash, txs: seq<TxHash>, ok: bool)
    requires WellFormed(t) && h in t && h in stored && number <= t[h].number
    ensures ok <==> Reaches(t, stored, h, number)
    ensures ok ==> at == Ancestor(t, h, number) && txs == TxsIn(t, Path(t, h, number))
  {
    hide Path, Ancestor, WellFormed, Reaches, TxsIn;
    at, txs := h, [];
    WalkStart(t, stored, h);
    while t[at].number > number
      invariant at in t && number <= t[at].number <= t[h].number && at == Ancestor(t, h, t[at].number)
      invariant txs == TxsIn(t, Path(t, h, t[at].number)) && Reaches(t, stored, h, t[at].number)
      decreases t[at].number
    {
      WalkStep(t, stored, h, t[at].number, number);
      txs := txs + t[at].txs;
      if t[at].parent !in stored {
        return at, txs, false;
      }
      at := t[at].parent;
    }
    ok := true;
  }

  /** The head of reset: which transactions the new chain has lost. */
  method FindReinject(t: Tree, stored: set<Hash>, oldHead: Option<Hash>, newHead: Hash) returns (r: Reinjection)
    requires WellFormed(t) && newHead in t && newHead in stored && (oldHead.Some? ==> oldHead.value in t)
    ensures r == Found(t, stored, oldHead, newHead)
  {
    hide Path, Ancestor, WellFormed, Reaches, TxsIn, Fork, Difference;
    if !Shallow(t, oldHead, newHead) {
      return Reinject([]);
    }
    var oldBlock := oldHead.value;
    if oldBlock !in stored {
      return if t[newHead].number >= t[oldBlock].number then Skipped else Reinject([]);
    }
    ForkDown(t, oldBlock, newHead);
    ghost var n := Fork(t, oldBlock, newHead);
    var rem, discarded, ok := Descend(t, stored, oldBlock, Min(t[oldBlock].number, t[newHead].number));
    if !ok {
      ReachesLess(t, stored, oldBlock, n, Min(t[oldBlock].number, t[newHead].number));
      return Skipped;
    }
    var add, included;
    add, included, ok := Descend(t, stored, newHead, Min(t[oldBlock].number, t[newHead].number));
    if !ok {
      ReachesLess(t, stored, newHead, n, Min(t[oldBlock].number, t[newHead].number));
      return Skipped;
    }
    SameFork(t, oldBlock, newHead);
    while rem != add
      invariant rem in t && add in t && t[rem].number == t[add].number <= Min(t[oldBlock].number, t[newHead].number)
      invariant rem == Ancestor(t, oldBlock, t[rem].number) && add == Ancestor(t, newHead, t[rem].number)
      invariant Fork(t, rem, add) == n
      invariant discarded == TxsIn(t, Path(t, oldBlock, t[rem].number)) && Reaches(t, stored, oldBlock, t[rem].number)
      invariant included == TxsIn(t, Path(t, newHead, t[rem].number)) && Reaches(t, stored, newHead, t[rem].number)
      decreases t[rem].number
    {
      ForkStep(t, rem, add);
      WalkStep(t, stored, oldBlock, t[rem].number, n);
      WalkStep(t, stored, newHead, t[rem].number, n);
      discarded := discarded + t[rem].txs;
      if t[rem].parent !in stored {
        return Skipped;
      }
      included := included + t[add].txs;
      if t[add].parent !in stored {
        return Skipped;
      }
      rem, add := t[rem].parent, t[add].parent;
    }
    ForkSelf(t, rem);
    var txs := TxDifference(discarded, included);
    TxsInMembers(t, Path(t, newHead, n));
    return Reinject(txs);
  }

  lemma WalkStart(t: Tree, stored: set<Hash>, h: Hash)
    requires WellFormed(t) && h in t && h in stored
    ensures Ancestor(t, h, t[h].number) == h && Path(t, h, t[h].number) == [] && TxsIn(t, []) == []
    ensures Reaches(t, stored, h, t[h].number)
  {}

  /** One block further down the path, or the end of the walk. */
  lemma WalkStep(t: Tree, stored: set<Hash>, h: Hash, k: nat, n: nat)
    requires WellFormed(t) && h in t && n < k <= t[h].number && Reaches(t, stored, h, k)
    ensures var a := Ancestor(t, h, k);
      && t[a].parent in t && t[t[a].parent].number == k - 1 && t[a].parent == Ancestor(t, h, k - 1)
      && TxsIn(t, Path(t, h, k - 1)) == TxsIn(t, Path(t, h, k)) + t[a].txs
      && (t[a].parent in stored ==> Reaches(t, stored, h, k - 1))
      && (t[a].parent !in stored ==> !Reaches(t, stored, h, n))
  {
    PathNext(t, h, k);
    hide Path, Ancestor, WellFormed;
    ReachesStep(t, stored, h, k, n);
    TxsInLast(t, Path(t, h, k), Ancestor(t, h, k));
    hide Reaches, TxsIn;
  }

  lemma ReachesStep(t: Tree, stored: set<Hash>, h: Hash, k: nat, n: nat)
    requires WellFormed(t) && h in t && n < k <= t[h].number && Reaches(t, stored, h, k)
    ensures Ancestor(t, h, k - 1) in stored ==> Reaches(t, stored, h, k - 1)
    ensures Ancestor(t, h, k - 1) !in stored ==> !Reaches(t, stored, h, n)
  {
    hide Ancestor, WellFormed;
    var low: nat := k - 1;
    assert n <= low <= t[h].number;
  }

  lemma TxsInLast(t: Tree, chain: seq<Hash>, h: Hash)
    requires h in t && forall x :: x in chain ==> x in t
    ensures TxsIn(t, chain + [h]) == TxsIn(t, chain) + t[h].txs
  {
    assert (chain + [h])[..|chain|] == chain;
  }

  lemma ReachesLess(t: Tree, stored: set<Hash>, h: Hash, n: nat, k: nat)
    requires WellFormed(t) && h in t && n <= k
    ensures Reaches(t, stored, h, n) ==> Reaches(t, stored, h, k)
  {}

  /** Bringing the heads level does not move the fork. */
  lemma SameFork(t: Tree, a: Hash, b: Hash)
    requires WellFormed(t) && a in t && b in t
    ensures var m := Min(t[a].number, t[b].number); Fork(t, Ancestor(t, a, m), Ancestor(t, b, m)) == Fork(t, a, b)
  {
    ForkDown(t, a, b);
    AncestorSelf(t, a);
    AncestorSelf(t, b);
  }

  lemma {:induction false} TxsInMembers(t: Tree, chain: seq<Hash>)
    requires forall h :: h in chain ==> h in t
    ensures Members(TxsIn(t, chain)) == TxsOf(t, chain)
  {
    if chain == [] {
      NoTxs(t);
    } else {
      var k := |chain| - 1;
      TxsInMembers(t, chain[..k]);
      assert chain == chain[..k] + [chain[k]];
      TxsOfLast(t, chain[..k], chain[k]);
      MembersJoin(TxsIn(t, chain[..k]), t[chain[k]].txs);
      hide TxsOf, Members;
    }
  }

  lemma TxsOfLast(t: Tree, chain: seq<Hash>, h: Hash)
    requires h in t && forall x :: x in chain ==> x in t
    ensures TxsOf(t, chain + [h]) == TxsOf(t, chain) + Members(t[h].txs)
  {
    var r := chain + [h];
    forall tx ensures tx in TxsOf(t, r) <==> tx in TxsOf(t, chain) || tx in t[h].txs {
      if tx in t[h].txs { assert h in r; }
      if tx in TxsOf(t, chain) { var x :| x in chain && tx in t[x].txs; assert x in r; }
    }
  }

  lemma MembersJoin<T>(a: seq<T>, b: seq<T>)
    ensures Members(a + b) == Members(a) + Members(b)
  {}

  /** Between two stored heads whose numbers are at most 64 apart, a reset re-injects exactly
      the transactions of the old chain that the new chain lacks. */
  lemma ReinjectedExactly(t: Tree, stored: set<Hash>, oldHead: Hash, newHead: Hash)
    requires WellFormed(t) && OncePerChain(t) && Rooted(t, stored) && oldHead in stored && newHead in stored
    requires t[oldHead].number <= t[newHead].number + MAX_DEPTH && t[newHead].number <= t[oldHead].number + MAX_DEPTH
    ensures var r := Found(t, stored, Some(oldHead), newHead);
      r.Reinject? && forall tx :: tx in r.txs <==> tx in TxMap(t, oldHead) && tx !in TxMap(t, newHead)
  {
    assert oldHead in t && newHead in t;
    hide TxMap, AddPath, AddTxs, Path, TxsOf, TxsIn, OncePerChain, Fork, Ancestor, Rooted, Difference, Reaches;
    if oldHead == t[newHead].parent {
      ExtensionKeeps(t, oldHead, newHead);
      return;
    }
    var n := Fork(t, oldHead, newHead);
    RootedReaches(t, stored, oldHead, n);
    RootedReaches(t, stored, newHead, n);
    TxsInMembers(t, Path(t, oldHead, n));
    TxMapSplit(t, oldHead, n);
    TxMapSplit(t, newHead, n);
    var common := TxMap(t, Ancestor(t, oldHead, n));
    AddPathIs(t, common, oldHead, n);
    AddPathIs(t, common, newHead, n);
    BranchIsFresh(t, oldHead, n);
    Lacking(common.Keys, TxsIn(t, Path(t, oldHead, n)), TxsOf(t, Path(t, newHead, n)));
  }

  lemma Lacking(common: set<TxHash>, branch: seq<TxHash>, other: set<TxHash>)
    requires common !! Members(branch)
    ensures forall tx :: tx in Difference(branch, other) <==> tx in common + Members(branch) && tx !in common + other
  {}

  lemma ExtensionKeeps(t: Tree, oldHead: Hash, newHead: Hash)
    requires WellFormed(t) && newHead in t && oldHead in t && t[newHead].parent == oldHead
    ensures TxMap(t, oldHead).Keys <= TxMap(t, newHead).Keys
  {
    TxMapSplit(t, newHead, t[oldHead].number);
    PathSelf(t, oldHead);
    AddPathIs(t, TxMap(t, oldHead), newHead, t[oldHead].number);
  }

  lemma {:induction false} RootedReaches(t: Tree, stored: set<Hash>, h: Hash, n: nat)
    requires WellFormed(t) && Rooted(t, stored) && h in stored && h in t
    ensures Reaches(t, stored, h, n)
    decreases t[h].number
  {
    if t[h].number > 0 {
      RootedReaches(t, stored, t[h].parent, n);
    }
    hide Rooted, WellFormed;
    forall k: nat | n <= k <= t[h].number ensures Ancestor(t, h, k) in stored {
      if k < t[h].number { AncestorBelow(t, h, k); }
    }
  }
}
