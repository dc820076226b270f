/** BlockChain: moving the head block, with the canonical index and the transaction lookup
    that must follow it. */
module BlockChains {
  import opened BlockTree
  import opened Transactions

  type TxHash = nat

  type TxLookup = map<TxHash, nat>

  /** The lookup entries of one block written over m. */
  function AddTxs(t: Tree, m: TxLookup, h: Hash): TxLookup
    requires h in t
  {
    m + map tx | tx in t[h].txs :: t[h].number
  }

  /** The entries of h's path above number n, written over m. */
  function AddPath(t: Tree, m: TxLookup, h: Hash, n: nat): TxLookup
    requires WellFormed(t) && h in t && n <= t[h].number
    decreases t[h].number
  {
    if t[h].number == n then m else AddTxs(t, AddPath(t, m, t[h].parent, n), h)
  }

  /** Where each transaction of the chain that ends in h is. */
  function TxMap(t: Tree, h: Hash): TxLookup
    requires WellFormed(t) && h in t
  {
    AddPath(t, AddTxs(t, map[], Ancestor(t, h, 0)), h, 0)
  }

  /** The lookup gives just the transactions of h's path, each with the number of its block. */
  ghost predicate Locates(t: Tree, m: TxLookup, h: Hash)
    requires WellFormed(t) && h in t
  {
    forall tx, n: nat :: LocatesAt(t, m, h, tx, n)
  }

  ghost predicate LocatesAt(t: Tree, m: TxLookup, h: Hash, tx: TxHash, n: nat)
    requires WellFormed(t) && h in t
  {
    (tx in m && m[tx] == n) <==> (n <= t[h].number && tx in t[Ancestor(t, h, n)].txs)
  }

  /** No chain holds a transaction twice. */
  ghost predicate OncePerChain(t: Tree)
    requires WellFormed(t)
  {
    forall h, tx :: h in t && t[h].number > 0 && tx in t[h].txs ==> tx !in TxMap(t, t[h].parent)
  }

  /** h's path above number n, from the top. */
  function Path(t: Tree, h: Hash, n: nat): (p: seq<Hash>)
    requires WellFormed(t) && h in t && n <= t[h].number
    ensures |p| == t[h].number - n && forall i :: 0 <= i < |p| ==> p[i] in t && t[p[i]].number == t[h].number - i
    decreases t[h].number
  {
    if t[h].number == n then [] else [h] + Path(t, t[h].parent, n)
  }

  function TxsOf(t: Tree, chain: seq<Hash>): set<TxHash>
    requires forall h :: h in chain ==> h in t
  {
    set h, tx | h in chain && tx in t[h].txs :: tx
  }

  function Less(m: TxLookup, gone: set<TxHash>): TxLookup { map tx | tx in m && tx !in gone :: m[tx] }

  /** The number of the last block a and b have in common. */
  function Fork(t: Tree, a: Hash, b: Hash): (n: nat)
    requires WellFormed(t) && a in t && b in t
    ensures n <= t[a].number && n <= t[b].number && Ancestor(t, a, n) == Ancestor(t, b, n)
    decreases t[a].number + t[b].number
  {
    if a == b then t[a].number
    else if t[a].number > t[b].number then Fork(t, t[a].parent, b)
    else if t[b].number > t[a].number then Fork(t, a, t[b].parent)
    else Fork(t, t[a].parent, t[b].parent)
  }

  class BlockChain {
    const tree: Tree
    var blocks: set<Hash>
    var td: map<Hash, nat>
    var canon: Index
    var lookup: TxLookup
    var currentBlock: Hash
    var currentHeader: Hash

    ghost predicate Based() reads this {
      WellFormed(tree) && OncePerChain(tree) && currentBlock in blocks && blocks <= tree.Keys
    }

    /** The index covers the chain of the head block, and the lookup lists exactly its
        transactions. Entries above the head may linger. */
    ghost predicate Valid() reads this {
      Based() && Covers(tree, canon, currentBlock) && lookup == TxMap(tree, currentBlock)
    }

    constructor (tree: Tree, genesis: Hash)
      requires WellFormed(tree) && OncePerChain(tree) && genesis in tree && tree[genesis].number == 0
      ensures Valid() && this.tree == tree && blocks == {genesis} && currentBlock == genesis && Holeless(canon, 0)
      ensures Rooted(tree, blocks) && Weighed(tree, blocks, td) && Leads(tree, blocks, currentBlock) && Locates(tree, lookup, currentBlock)
    {
      this.tree, blocks, currentBlock, currentHeader := tree, {genesis}, genesis, genesis;
      td, canon := map[genesis := tree[genesis].difficulty], map[0 := genesis];
      lookup := AddTxs(tree, map[], genesis);
      FreshChain(tree, genesis);
      LookupMeans(tree, genesis);
    }

    /** writeHeadBlock. */
    method WriteHeadBlock(block: Hash)
      requires block in tree
      modifies this`canon, this`lookup, this`currentBlock, this`currentHeader
      ensures canon == old(canon)[tree[block].number := block] && lookup == AddTxs(tree, old(lookup), block)
      ensures forall tx :: tx in lookup <==> tx in old(lookup) || tx in tree[block].txs
      ensures forall tx :: tx in lookup ==> lookup[tx] == if tx in tree[block].txs then tree[block].number else old(lookup)[tx]
      ensures currentBlock == block
      ensures currentHeader == if Lookup(old(canon), tree[block].number) != block then block else old(currentHeader)
    {
      var updateHeads := Lookup(canon, tree[block].number) != block;
      canon := canon[tree[block].number := block];
      lookup := AddTxs(tree, lookup, block);
      if updateHeads {
        currentHeader := block;
      }
      currentBlock := block;
    }

    /** The blocks from h down to number n, exclusive; fails on a missing one. */
    method Descend(h: Hash, n: nat) returns (r: Hash, chain: seq<Hash>, ok: bool)
      requires WellFormed(tree) && h in blocks && blocks <= tree.Keys && n <= tree[h].number
      ensures ok ==> r in blocks && r == Ancestor(tree, h, n) && chain == Path(tree, h, n)
      ensures Rooted(tree, blocks) ==> ok
    {
      hide WellFormed;
      r, chain := h, [];
      PathSelf(tree, h);
      while tree[r].number != n
        invariant r in blocks && n <= tree[r].number <= tree[h].number
        invariant r == Ancestor(tree, h, tree[r].number) && chain == Path(tree, h, tree[r].number)
        decreases tree[r].number
      {
        PathNext(tree, h, tree[r].number);
        chain := chain + [r];
        if tree[r].parent !in blocks {
          return r, chain, false;
        }
        r := tree[r].parent;
      }
      ok := true;
    }

    /** The walk of reorg: both branches down to the common block. */
    method FindFork(oldBlock: Hash, newBlock: Hash) returns (oldChain: seq<Hash>, newChain: seq<Hash>, ok: bool)
      requires WellFormed(tree) && oldBlock in blocks && newBlock in blocks && blocks <= tree.Keys
      ensures ok ==> var n := Fork(tree, oldBlock, newBlock);
        oldChain == Path(tree, oldBlock, n) && newChain == Path(tree, newBlock, n)
      ensures Rooted(tree, blocks) ==> ok
    {
      hide WellFormed, Path;
      oldChain, newChain := [], [];
      var o, n := oldBlock, newBlock;
      PathSelf(tree, o);
      PathSelf(tree, n);
      ForkDown(tree, oldBlock, newBlock);
      if tree[o].number > tree[n].number {
        o, oldChain, ok := Descend(o, tree[n].number);
      } else {
        n, newChain, ok := Descend(n, tree[o].number);
      }
      if !ok {
        return;
      }
      while o != n
        invariant o in blocks && n in blocks && tree[o].number == tree[n].number <= Min(tree[oldBlock].number, tree[newBlock].number)
        invariant o == Ancestor(tree, oldBlock, tree[o].number) && n == Ancestor(tree, newBlock, tree[n].number)
        invariant oldChain == Path(tree, oldBlock, tree[o].number) && newChain == Path(tree, newBlock, tree[n].number)
        invariant Fork(tree, o, n) == Fork(tree, oldBlock, newBlock)
        decreases tree[o].number
      {
        ForkStep(tree, o, n);
        PathNext(tree, oldBlock, tree[o].number);
        PathNext(tree, newBlock, tree[n].number);
        oldChain, newChain := oldChain + [o], newChain + [n];
        if tree[o].parent !in blocks || tree[n].parent !in blocks {
          return oldChain, newChain, false;
        }
        o, n := tree[o].parent, tree[n].parent;
      }
    }

    /** Writes the new branch from the bottom up, leaving out its head. */
    method Reinsert(newBlock: Hash, newChain: seq<Hash>, ghost n: nat)
      requires WellFormed(tree) && newBlock in tree && n <= tree[newBlock].number && newChain == Path(tree, newBlock, n)
      modifies this`canon, this`lookup, this`currentBlock, this`currentHeader
      ensures var m := LastWritten(tree, newBlock, n);
        && Spliced(tree, old(canon), canon, newBlock, n, m)
        && lookup == AddPath(tree, old(lookup), Ancestor(tree, newBlock, m), n)
        && currentBlock == (if m > n then Ancestor(tree, newBlock, m) else old(currentBlock))
    {
      hide WellFormed, Path, AddTxs, AddPath;
      ghost var m := n;
      AddNothing(tree, lookup, newBlock, n);
      var i := |newChain| - 1;
      while i >= 1
        invariant newChain != [] ==> 0 <= i < |newChain| && m == tree[newBlock].number - i - 1
        invariant newChain == [] ==> m == n
        invariant n <= m <= tree[newBlock].number
        invariant Spliced(tree, old(canon), canon, newBlock, n, m)
        invariant lookup == AddPath(tree, old(lookup), Ancestor(tree, newBlock, m), n)
        invariant currentBlock == if m > n then Ancestor(tree, newBlock, m) else old(currentBlock)
        decreases i
      {
        PathAt(tree, newBlock, n, i);
        AddNext(tree, old(lookup), newBlock, n, m);
        WriteHeadBlock(newChain[i]);
        m := m + 1;
        i := i - 1;
      }
    }

    /** Deletes the index entries above a number, up to the first that is missing. */
    method DeleteAbove(number: nat)
      modifies this`canon
      ensures canon == Sweep(old(canon), number)
    {
      var batch := canon;
      var i := number + 1;
      while Lookup(canon, i) != ZERO
        invariant canon == old(canon)
        invariant i > number && forall k: nat :: number < k < i ==> Lookup(canon, k) != ZERO
        invariant batch == map n | n in canon && !(number < n < i) :: canon[n]
        decreases EntriesFrom(canon, i)
      {
        GapEnds(canon, i);
        batch := Without(batch, i);
        i := i + 1;
      }
      GapIs(canon, number + 1, i);
      assert batch == Sweep(canon, number);
      canon := batch;
    }

    /** reorg: all of the new branch but its head, and the clean-up. */
    method Reorg(newBlock: Hash) returns (ok: bool)
      requires Valid() && newBlock in blocks
      modifies this`canon, this`lookup, this`currentBlock, this`currentHeader
      ensures !ok ==> canon == old(canon) && lookup == old(lookup) && currentBlock == old(currentBlock) && currentHeader == old(currentHeader)
      ensures Rooted(tree, blocks) ==> ok
      ensures ok ==>
        && Prepared(tree, canon, newBlock)
        && AddTxs(tree, lookup, newBlock) == TxMap(tree, newBlock)
        && Cleaned(tree, old(canon), canon, old(currentBlock), newBlock)
    {
      hide WellFormed, Path, AddTxs, AddPath, TxMap, Less, TxsOf, OncePerChain, Covers, Spliced, Prepared, Cleaned, Fork, Gap;
      var oldBlock := currentBlock;
      var oldChain, newChain;
      oldChain, newChain, ok := FindFork(oldBlock, newBlock);
      if !ok {
        return;
      }
      ghost var n := Fork(tree, oldBlock, newBlock);
      ghost var was := canon;
      Reinsert(newBlock, newChain, n);
      AddedChain(tree, newBlock, n, newChain);
      lookup := Less(lookup, TxsOf(tree, oldChain) - TxsOf(tree, if newChain == [] then [] else newChain[1..]));
      LookupMoves(tree, oldBlock, newBlock);
      ghost var spliced := canon;
      CleanFromIs(tree, oldBlock, newBlock, currentBlock);
      DeleteAbove(tree[currentBlock].number);
      IndexMoves(tree, was, spliced, canon, oldBlock, newBlock);
    }

    /** Makes block the head, by a reorganisation unless it extends the current head. */
    method SetHead(block: Hash) returns (ok: bool)
      requires Valid() && block in blocks
      modifies this`canon, this`lookup, this`currentBlock, this`currentHeader
      ensures Valid() && (Rooted(tree, blocks) ==> ok)
      ensures !ok ==> canon == old(canon) && lookup == old(lookup) && currentBlock == old(currentBlock) && currentHeader == old(currentHeader)
      ensures ok ==> currentBlock == block && IndexMoved(tree, old(canon), canon, old(currentBlock), block)
      ensures ok ==> lookup == MovedLookup(tree, old(lookup), old(currentBlock), block)
      ensures Locates(tree, lookup, currentBlock)
    {
      hide WellFormed, Locates, AddTxs, AddPath, TxMap, OncePerChain, Covers, Prepared, Cleaned, IndexMoved, Gap, MovedLookup;
      LookupFollows(tree, currentBlock, block);
      LookupMeans(tree, currentBlock);
      LookupMeans(tree, block);
      if tree[block].parent != currentBlock {
        ok := Reorg(block);
        if !ok {
          return;
        }
      } else {
        Extends(tree, canon, currentBlock, block);
        ok := true;
      }
      ghost var prepared := canon;
      WriteHeadBlock(block);
      HeadWritten(tree, old(canon), prepared, old(currentBlock), block);
      MovedCovers(tree, old(canon), canon, old(currentBlock), block);
    }

    /** The end of writeBlockWithState: fork choice by weight, then height, then preference
        for the local miner's block, then the coin. */
    method WriteBlock(block: Hash, currentPreserve: bool, blockPreserve: bool, coin: bool) returns (canonical: bool, ok: bool)
      requires Valid() && block in tree && tree[block].number > 0 && tree[block].parent in blocks
      requires Weighed(tree, blocks, td)
      modifies this
      ensures Valid() && (Rooted(tree, old(blocks)) ==> ok && Rooted(tree, blocks))
      ensures blocks == old(blocks) + {block} && Weighed(tree, blocks, td)
      ensures canonical <==> ok && Prefers(tree, old(currentBlock), block, currentPreserve, blockPreserve, coin)
      ensures !canonical ==> canon == old(canon) && lookup == old(lookup) && currentBlock == old(currentBlock) && currentHeader == old(currentHeader)
      ensures canonical ==> currentBlock == block && IndexMoved(tree, old(canon), canon, old(currentBlock), block)
      ensures canonical ==> lookup == MovedLookup(tree, old(lookup), old(currentBlock), block)
      ensures Locates(tree, lookup, currentBlock)
      ensures ok && Leads(tree, old(blocks), old(currentBlock)) ==> Leads(tree, blocks, currentBlock)
    {
      hide WellFormed, Locates, Leads, TxMap, OncePerChain, Covers, IndexMoved, Weight, MovedLookup;
      WeightNext(tree, block);
      var localTd := td[currentBlock];
      var externTd := td[tree[block].parent] + tree[block].difficulty;
      blocks, td := blocks + {block}, td[block := externTd];
      RootedMore(tree, old(blocks), block);
      LeadsOn(tree, old(blocks), currentBlock, block, currentPreserve, blockPreserve, coin);
      LookupMeans(tree, currentBlock);
      var reorg := externTd > localTd;
      if !reorg && externTd == localTd {
        if tree[block].number < tree[currentBlock].number {
          reorg := true;
        } else if tree[block].number == tree[currentBlock].number {
          reorg := !currentPreserve && (blockPreserve || coin);
        }
      }
      if !reorg {
        return false, true;
      }
      ok := SetHead(block);
      canonical := ok;
    }
  }

  /** The fork choice. */
  ghost predicate Prefers(t: Tree, head: Hash, block: Hash, currentPreserve: bool, blockPreserve: bool, coin: bool)
    requires WellFormed(t) && head in t && block in t
  {
    var w, v := Weight(t, block), Weight(t, head);
    || w > v
    || (w == v && t[block].number < t[head].number)
    || (w == v && t[block].number == t[head].number && !currentPreserve && (blockPreserve || coin))
  }

  /** No stored block is heavier than the head, or as heavy and lower. */
  ghost predicate Leads(t: Tree, stored: set<Hash>, head: Hash)
    requires WellFormed(t)
  {
    head in t && forall h :: h in stored ==>
      h in t && (Weight(t, h) < Weight(t, head) || (Weight(t, h) == Weight(t, head) && t[h].number >= t[head].number))
  }

  /** The fork choice keeps the head in the lead; a block that draws level replaces one that is
      not the local miner's, if it is his itself or the coin says so. */
  lemma LeadsOn(t: Tree, stored: set<Hash>, head: Hash, block: Hash, currentPreserve: bool, blockPreserve: bool, coin: bool)
    requires WellFormed(t) && head in t && block in t
    ensures Leads(t, stored, head) ==>
      Leads(t, stored + {block}, if Prefers(t, head, block, currentPreserve, blockPreserve, coin) then block else head)
    ensures Weight(t, block) == Weight(t, head) && t[block].number == t[head].number ==>
      (Prefers(t, head, block, currentPreserve, blockPreserve, coin) <==> !currentPreserve && (blockPreserve || coin))
  {
    hide Weight, WellFormed;
  }

  /** The clean-up starts from the head block, which has moved only if the new branch has at
      least two blocks past the fork. */
  predicate CleansUp(t: Tree, oldBlock: Hash, newBlock: Hash)
    requires WellFormed(t) && oldBlock in t && newBlock in t
  {
    t[newBlock].number - Fork(t, oldBlock, newBlock) >= 2 || t[newBlock].number >= t[oldBlock].number
  }

  /** The number reorg's clean-up starts above. */
  ghost function CleanFrom(t: Tree, oldBlock: Hash, newBlock: Hash): nat
    requires WellFormed(t) && oldBlock in t && newBlock in t
  {
    var n := Fork(t, oldBlock, newBlock);
    if LastWritten(t, newBlock, n) > n then LastWritten(t, newBlock, n) else t[oldBlock].number
  }

  /** reorg deletes the entries above its starting point up to the first missing one. */
  ghost predicate Swept(t: Tree, was: Index, oldBlock: Hash, newBlock: Hash, k: nat)
    requires WellFormed(t) && oldBlock in t && newBlock in t
  {
    var from := CleanFrom(t, oldBlock, newBlock);
    from < k < Gap(was, from + 1)
  }

  /** The index without the run of entries that starts just above a number. */
  ghost function Sweep(canon: Index, number: nat): Index {
    map n | n in canon && !(number < n < Gap(canon, number + 1)) :: canon[n]
  }

  /** From newBlock's number on, reorg leaves the old index less what it sweeps. */
  ghost predicate Cleaned(t: Tree, was: Index, canon: Index, oldBlock: Hash, newBlock: Hash)
    requires WellFormed(t) && oldBlock in t && newBlock in t
  {
    forall k: nat :: k >= t[newBlock].number ==>
      (k in canon <==> k in was && !Swept(t, was, oldBlock, newBlock, k)) && (k in canon ==> canon[k] == was[k])
  }

  /** An old entry above the new head that no clean-up reaches: one that extends the head
      has none. */
  ghost predicate Lingers(t: Tree, was: Index, oldBlock: Hash, newBlock: Hash, k: nat)
    requires WellFormed(t) && oldBlock in t && newBlock in t
  {
    k in was && k > t[newBlock].number && (t[newBlock].parent == oldBlock || !Swept(t, was, oldBlock, newBlock, k))
  }

  /** The index after the head moved: the new head's path, and above it what lingers. */
  ghost predicate IndexMoved(t: Tree, was: Index, canon: Index, oldBlock: Hash, newBlock: Hash)
    requires WellFormed(t) && oldBlock in t && newBlock in t
  {
    && Covers(t, canon, newBlock)
    && forall k: nat :: k > t[newBlock].number ==>
         (k in canon <==> Lingers(t, was, oldBlock, newBlock, k)) && (k in canon ==> canon[k] == was[k])
  }

  /** The number of the last block reorg itself writes. */
  function LastWritten(t: Tree, newBlock: Hash, n: nat): (m: nat)
    requires newBlock in t && n <= t[newBlock].number
    ensures n <= m <= t[newBlock].number
  {
    if n == t[newBlock].number then n else t[newBlock].number - 1
  }

  /** The index with h's path written over it between n and m. */
  ghost predicate Spliced(t: Tree, was: Index, canon: Index, h: Hash, n: nat, m: nat)
    requires WellFormed(t) && h in t && m <= t[h].number
  {
    forall k: nat ::
      if n < k <= m then k in canon && canon[k] == Ancestor(t, h, k)
      else (k in canon <==> k in was) && (k in was ==> canon[k] == was[k])
  }

  /** All of head's path but head itself is on the index. */
  ghost predicate Prepared(t: Tree, canon: Index, head: Hash)
    requires WellFormed(t) && head in t
  {
    forall n: nat :: n < t[head].number ==> n in canon && canon[n] == Ancestor(t, head, n)
  }

  lemma PathSelf(t: Tree, h: Hash)
    requires WellFormed(t) && h in t
    ensures Path(t, h, t[h].number) == [] && Ancestor(t, h, t[h].number) == h
  {}

  lemma {:induction false} PathNext(t: Tree, h: Hash, n: nat)
    requires WellFormed(t) && h in t && 0 < n <= t[h].number
    ensures var a := Ancestor(t, h, n);
      && t[a].parent in t && t[t[a].parent].number == n - 1
      && t[a].parent == Ancestor(t, h, n - 1) && Path(t, h, n - 1) == Path(t, h, n) + [a]
    decreases t[h].number
  {
    if t[h].number > n { PathNext(t, t[h].parent, n); }
  }

  lemma ForkSelf(t: Tree, a: Hash)
    requires WellFormed(t) && a in t
    ensures Fork(t, a, a) == t[a].number
  {}

  lemma ForkFirst(t: Tree, a: Hash, b: Hash)
    requires WellFormed(t) && a in t && b in t && t[a].number > t[b].number
    ensures t[a].parent in t && Fork(t, a, b) == Fork(t, t[a].parent, b)
  {}

  lemma ForkStep(t: Tree, a: Hash, b: Hash)
    requires WellFormed(t) && a in t && b in t && a != b && t[a].number == t[b].number
    ensures t[a].number > 0 && t[a].parent in t && t[b].parent in t
    ensures Fork(t, a, b) == Fork(t, t[a].parent, t[b].parent)
  {}

  lemma {:induction false} ForkDown(t: Tree, a: Hash, b: Hash)
    requires WellFormed(t) && a in t && b in t
    ensures t[a].number >= t[b].number ==> Fork(t, a, b) == Fork(t, Ancestor(t, a, t[b].number), b)
    ensures t[b].number >= t[a].number ==> Fork(t, a, b) == Fork(t, a, Ancestor(t, b, t[a].number))
    decreases t[a].number + t[b].number
  {
    if t[a].number > t[b].number {
      ForkDown(t, t[a].parent, b);
    } else if t[b].number > t[a].number {
      ForkDown(t, a, t[b].parent);
    }
  }

  /** The fork is the last number at which the two paths agree. */
  lemma {:induction false} ForkIsLast(t: Tree, a: Hash, b: Hash, k: nat)
    requires WellFormed(t) && a in t && b in t && k <= t[a].number && k <= t[b].number
    ensures Ancestor(t, a, k) == Ancestor(t, b, k) <==> k <= Fork(t, a, b)
    decreases t[a].number + t[b].number
  {
    hide WellFormed, Ancestor;
    if a == b {
      ForkSelf(t, a);
    } else if t[a].number > t[b].number {
      ForkFirst(t, a, b);
      AncestorBelow(t, a, k);
      ForkIsLast(t, t[a].parent, b, k);
    } else if t[b].number > t[a].number {
      ForkDown(t, a, b);
      AncestorTrans(t, b, t[a].number, k);
      if Ancestor(t, b, t[a].number) != a { ForkIsLast(t, a, Ancestor(t, b, t[a].number), k); }
    } else if k == t[a].number {
      AncestorSelf(t, a);
      AncestorSelf(t, b);
      ForkStep(t, a, b);
    } else {
      ForkStep(t, a, b);
      AncestorBelow(t, a, k);
      AncestorBelow(t, b, k);
      ForkIsLast(t, t[a].parent, t[b].parent, k);
    }
  }

  lemma AddNothing(t: Tree, m: TxLookup, h: Hash, n: nat)
    requires WellFormed(t) && h in t && n <= t[h].number
    ensures AddPath(t, m, Ancestor(t, h, n), n) == m
  {}

  lemma {:induction false} PathAt(t: Tree, h: Hash, n: nat, i: nat)
    requires WellFormed(t) && h in t && n <= t[h].number && i < |Path(t, h, n)|
    ensures Path(t, h, n)[i] == Ancestor(t, h, t[h].number - i)
    decreases t[h].number
  {
    hide Ancestor;
    if i == 0 {
      AncestorSelf(t, h);
    } else {
      AncestorBelow(t, h, t[h].number - i);
      PathAt(t, t[h].parent, n, i - 1);
    }
  }

  lemma AddNext(t: Tree, m: TxLookup, h: Hash, n: nat, k: nat)
    requires WellFormed(t) && h in t && n <= k < t[h].number
    ensures AddPath(t, m, Ancestor(t, h, k + 1), n) == AddTxs(t, AddPath(t, m, Ancestor(t, h, k), n), Ancestor(t, h, k + 1))
  {
    PathNext(t, h, k + 1);
  }

  /** The written part of the new branch. */
  lemma AddedChain(t: Tree, newBlock: Hash, n: nat, newChain: seq<Hash>)
    requires WellFormed(t) && newBlock in t && n <= t[newBlock].number && newChain == Path(t, newBlock, n)
    ensures (if newChain == [] then [] else newChain[1..]) == Path(t, Ancestor(t, newBlock, LastWritten(t, newBlock, n)), n)
  {
    if newChain != [] { PathSelf(t, t[newBlock].parent); }
  }

  lemma {:induction false} AddPathIs(t: Tree, m: TxLookup, h: Hash, n: nat)
    requires WellFormed(t) && h in t && n <= t[h].number
    ensures AddPath(t, m, h, n) == m + AddPath(t, map[], h, n)
    ensures AddPath(t, map[], h, n).Keys == TxsOf(t, Path(t, h, n))
    decreases t[h].number
  {
    hide TxsOf, WellFormed;
    NoTxs(t);
    if t[h].number > n {
      ParentIn(t, h);
      AddPathIs(t, m, t[h].parent, n);
      TxsOfFirst(t, h, Path(t, t[h].parent, n));
      var added := map tx | tx in t[h].txs :: t[h].number;
      MapsAdd(m, AddPath(t, map[], t[h].parent, n), added);
      assert AddPath(t, m, h, n) == AddTxs(t, AddPath(t, m, t[h].parent, n), h);
      hide *;
    }
  }

  lemma NoTxs(t: Tree)
    ensures TxsOf(t, []) == {}
  {}

  lemma MapsAdd(m: TxLookup, a: TxLookup, x: TxLookup)
    ensures (m + a) + x == m + (a + x)
  {}

  lemma TxsOfFirst(t: Tree, h: Hash, p: seq<Hash>)
    requires h in t && forall x :: x in p ==> x in t
    ensures TxsOf(t, [h] + p) == TxsOf(t, p) + set tx | tx in t[h].txs
  {
    forall tx ensures tx in TxsOf(t, [h] + p) <==> tx in TxsOf(t, p) || tx in t[h].txs {
      if tx in t[h].txs { assert h in [h] + p; }
      if tx in TxsOf(t, p) { var x :| x in p && tx in t[x].txs; assert x in [h] + p; }
    }
  }

  lemma {:induction false} AddPathSplit(t: Tree, m: TxLookup, h: Hash, n: nat, k: nat)
    requires WellFormed(t) && h in t && k <= n <= t[h].number
    ensures AddPath(t, m, h, k) == AddPath(t, AddPath(t, m, Ancestor(t, h, n), k), h, n)
    decreases t[h].number
  {
    if t[h].number > n { AddPathSplit(t, m, t[h].parent, n, k); }
  }

  lemma TxMapSplit(t: Tree, h: Hash, n: nat)
    requires WellFormed(t) && h in t && n <= t[h].number
    ensures TxMap(t, h) == AddPath(t, TxMap(t, Ancestor(t, h, n)), h, n)
  {
    AncestorTrans(t, h, n, 0);
    AddPathSplit(t, AddTxs(t, map[], Ancestor(t, h, 0)), h, n, 0);
  }

  lemma LocatesNext(t: Tree, m: TxLookup, h: Hash)
    requires WellFormed(t) && h in t && t[h].number > 0 && t[h].parent in t && Locates(t, m, t[h].parent)
    requires forall tx :: tx in t[h].txs ==> tx !in m
    ensures Locates(t, AddTxs(t, m, h), h)
  {
    var r := AddTxs(t, m, h);
    forall tx, n: nat ensures LocatesAt(t, r, h, tx, n) {
      assert LocatesAt(t, m, t[h].parent, tx, n);
      if n < t[h].number { AncestorBelow(t, h, n); }
      AncestorSelf(t, h);
      hide Ancestor, WellFormed;
    }
  }

  /** On a chain without repetitions the lookup it has to have says where each of its
      transactions is, and has no other. */
  lemma {:induction false} LookupMeans(t: Tree, h: Hash)
    requires WellFormed(t) && OncePerChain(t) && h in t
    ensures Locates(t, TxMap(t, h), h)
    decreases t[h].number
  {
    AncestorSelf(t, h);
    if t[h].number > 0 {
      ParentIn(t, h);
      LookupMeans(t, t[h].parent);
      HeadAdded(t, t[h].parent, h);
      assert forall tx :: tx in t[h].txs ==> tx !in TxMap(t, t[h].parent);
      hide TxMap, AddTxs, WellFormed, OncePerChain, Locates;
      LocatesNext(t, TxMap(t, t[h].parent), h);
    }
  }

  /** Above the fork no transaction of the old chain is one of the common chain. */
  lemma {:induction false} BranchIsFresh(t: Tree, h: Hash, n: nat)
    requires WellFormed(t) && OncePerChain(t) && h in t && n <= t[h].number
    ensures TxMap(t, Ancestor(t, h, n)).Keys !! TxsOf(t, Path(t, h, n))
    decreases t[h].number
  {
    if t[h].number > n {
      var p := t[h].parent;
      BranchIsFresh(t, p, n);
      TxMapSplit(t, p, n);
      AddPathIs(t, TxMap(t, Ancestor(t, p, n)), p, n);
      TxsOfFirst(t, h, Path(t, p, n));
    }
  }

  lemma SwapBranches(c: TxLookup, o: TxLookup, n: TxLookup)
    requires c.Keys !! o.Keys
    ensures Less((c + o) + n, o.Keys - n.Keys) == c + n
  {}

  lemma Rewriting(t: Tree, m: TxLookup, h: Hash)
    requires WellFormed(t) && h in t && m == TxMap(t, h)
    ensures AddTxs(t, m, h) == m
  {
    var added := map tx | tx in t[h].txs :: t[h].number;
    if t[h].number == 0 {
      assert m == map[] + added;
    } else {
      TxMapSplit(t, h, t[h].number - 1);
      assert m == AddPath(t, TxMap(t, t[h].parent), t[h].parent, t[h].number - 1) + added;
    }
    assert forall x: TxLookup :: x + added + added == x + added;
  }

  lemma LookupMoves(t: Tree, oldBlock: Hash, newBlock: Hash)
    requires WellFormed(t) && OncePerChain(t) && oldBlock in t && newBlock in t
    ensures var n := Fork(t, oldBlock, newBlock);
      var top := Ancestor(t, newBlock, LastWritten(t, newBlock, n));
      AddTxs(t, Less(AddPath(t, TxMap(t, oldBlock), top, n), TxsOf(t, Path(t, oldBlock, n)) - TxsOf(t, Path(t, top, n))), newBlock) == TxMap(t, newBlock)
  {
    hide TxMap, AddPath, AddTxs, Path, TxsOf, Less, OncePerChain, Fork;
    var n := Fork(t, oldBlock, newBlock);
    var top := Ancestor(t, newBlock, LastWritten(t, newBlock, n));
    var c := TxMap(t, Ancestor(t, oldBlock, n));
    TxMapSplit(t, oldBlock, n);
    TxMapSplit(t, newBlock, n);
    BranchIsFresh(t, oldBlock, n);
    AddPathIs(t, c, oldBlock, n);
    AddPathIs(t, TxMap(t, oldBlock), top, n);
    AddPathIs(t, c, top, n);
    SwapBranches(c, AddPath(t, map[], oldBlock, n), AddPath(t, map[], top, n));
    LastAdded(t, c, newBlock, n);
  }

  lemma LastAdded(t: Tree, c: TxLookup, newBlock: Hash, n: nat)
    requires WellFormed(t) && newBlock in t && n <= t[newBlock].number && c == TxMap(t, Ancestor(t, newBlock, n))
    requires TxMap(t, newBlock) == AddPath(t, c, newBlock, n)
    ensures AddTxs(t, AddPath(t, c, Ancestor(t, newBlock, LastWritten(t, newBlock, n)), n), newBlock) == TxMap(t, newBlock)
  {
    if n == t[newBlock].number {
      Rewriting(t, c, newBlock);
    } else {
      PathSelf(t, t[newBlock].parent);
    }
  }

  lemma CleanFromIs(t: Tree, oldBlock: Hash, newBlock: Hash, current: Hash)
    requires WellFormed(t) && oldBlock in t && newBlock in t
    requires var n := Fork(t, oldBlock, newBlock); var m := LastWritten(t, newBlock, n);
      current == if m > n then Ancestor(t, newBlock, m) else oldBlock
    ensures current in t && t[current].number == CleanFrom(t, oldBlock, newBlock)
    ensures CleanFrom(t, oldBlock, newBlock) >= LastWritten(t, newBlock, Fork(t, oldBlock, newBlock))
  {
    hide Fork;
  }

  lemma {:induction false} GapSame(a: Index, b: Index, n: nat)
    requires forall k: nat :: k >= n ==> Lookup(a, k) == Lookup(b, k)
    ensures Gap(a, n) == Gap(b, n)
  {
    GapIs(a, n, Gap(b, n));
  }

  lemma IndexMoves(t: Tree, was: Index, spliced: Index, canon: Index, oldBlock: Hash, newBlock: Hash)
    requires WellFormed(t) && newBlock in t && oldBlock in t && Covers(t, was, oldBlock)
    requires var n := Fork(t, oldBlock, newBlock); Spliced(t, was, spliced, newBlock, n, LastWritten(t, newBlock, n))
    requires CleanFrom(t, oldBlock, newBlock) >= LastWritten(t, newBlock, Fork(t, oldBlock, newBlock))
    requires var from := CleanFrom(t, oldBlock, newBlock);
      canon == Sweep(spliced, from)
    ensures Prepared(t, canon, newBlock) && Cleaned(t, was, canon, oldBlock, newBlock)
  {
    hide Fork, Ancestor, WellFormed, Covers, Prepared, Gap, CleanFrom;
    var n, from := Fork(t, oldBlock, newBlock), CleanFrom(t, oldBlock, newBlock);
    var m := LastWritten(t, newBlock, n);
    forall k: nat | k >= from + 1 ensures Lookup(spliced, k) == Lookup(was, k) {}
    GapSame(spliced, was, from + 1);
    CommonPath(t, oldBlock, newBlock, n);
    SplicedPrepared(t, was, spliced, oldBlock, newBlock, n, m);
    PreparedBelow(t, spliced, newBlock, from);
    hide Spliced;
  }

  lemma SplicedPrepared(t: Tree, was: Index, spliced: Index, oldBlock: Hash, newBlock: Hash, n: nat, m: nat)
    requires WellFormed(t) && newBlock in t && Covers(t, was, oldBlock) && n <= t[oldBlock].number && n <= t[newBlock].number
    requires m == LastWritten(t, newBlock, n) && Spliced(t, was, spliced, newBlock, n, m)
    requires forall k: nat :: k <= n ==> Ancestor(t, oldBlock, k) == Ancestor(t, newBlock, k)
    ensures Prepared(t, spliced, newBlock)
  {
    hide Ancestor, WellFormed;
  }

  lemma PreparedBelow(t: Tree, spliced: Index, newBlock: Hash, number: nat)
    requires WellFormed(t) && newBlock in t && Prepared(t, spliced, newBlock) && number >= t[newBlock].number - 1
    ensures Prepared(t, Sweep(spliced, number), newBlock)
  {
    hide Ancestor, WellFormed;
  }

  lemma CommonPath(t: Tree, a: Hash, b: Hash, n: nat)
    requires WellFormed(t) && a in t && b in t && n <= t[a].number && n <= t[b].number && Ancestor(t, a, n) == Ancestor(t, b, n)
    ensures forall k: nat :: k <= n ==> Ancestor(t, a, k) == Ancestor(t, b, k)
  {
    forall k: nat | k <= n ensures Ancestor(t, a, k) == Ancestor(t, b, k) {
      AncestorTrans(t, a, n, k);
      AncestorTrans(t, b, n, k);
    }
  }

  lemma Extends(t: Tree, canon: Index, head: Hash, block: Hash)
    requires WellFormed(t) && block in t && t[block].parent == head && Covers(t, canon, head)
    ensures Prepared(t, canon, block)
    ensures AddTxs(t, TxMap(t, head), block) == TxMap(t, block)
  {
    HeadAdded(t, head, block);
  }

  lemma FreshChain(t: Tree, genesis: Hash)
    requires WellFormed(t) && genesis in t && t[genesis].number == 0
    ensures Covers(t, map[0 := genesis], genesis) && Holeless(map[0 := genesis], 0)
    ensures AddTxs(t, map[], genesis) == TxMap(t, genesis)
    ensures Rooted(t, {genesis}) && Weighed(t, {genesis}, map[genesis := t[genesis].difficulty])
  {
    assert genesis != ZERO;
    hide Weight, Ancestor, WellFormed;
    WeightRoot(t, genesis);
    AncestorSelf(t, genesis);
  }

  lemma HeadWritten(t: Tree, was: Index, canon: Index, head: Hash, block: Hash)
    requires WellFormed(t) && block in t && head in t && Prepared(t, canon, block)
    requires if t[block].parent == head then canon == was else Cleaned(t, was, canon, head, block)
    ensures IndexMoved(t, was, canon[t[block].number := block], head, block)
  {
    CoversWritten(t, canon, block);
    AboveWritten(t, was, canon, head, block);
    hide WellFormed, Covers, Prepared, Cleaned, Lingers;
  }

  lemma CoversWritten(t: Tree, canon: Index, block: Hash)
    requires WellFormed(t) && block in t && Prepared(t, canon, block)
    ensures Covers(t, canon[t[block].number := block], block)
  {
    AncestorSelf(t, block);
    hide Ancestor, WellFormed;
  }

  lemma AboveWritten(t: Tree, was: Index, canon: Index, head: Hash, block: Hash)
    requires WellFormed(t) && block in t && head in t
    requires if t[block].parent == head then canon == was else Cleaned(t, was, canon, head, block)
    ensures forall k: nat :: k > t[block].number ==> (k in canon <==> Lingers(t, was, head, block, k)) && (k in canon ==> canon[k] == was[k])
  {
    hide Swept, WellFormed;
  }

  // ----- what is left above the head -----

  /** After any move the index is canonical exactly when nothing lingers. */
  lemma CanonicalIffNothingLingers(t: Tree, was: Index, canon: Index, head: Hash, block: Hash)
    requires WellFormed(t) && head in t && block in t && IndexMoved(t, was, canon, head, block)
    ensures Canonical(t, canon, block) <==> forall k: nat :: !Lingers(t, was, head, block, k)
  {
    hide Ancestor, WellFormed, Lingers;
    forall k: nat | Lingers(t, was, head, block, k) ensures k > t[block].number { LingersAbove(t, was, head, block, k); }
    if forall k: nat :: !Lingers(t, was, head, block, k) {
      assert Canonical(t, canon, block);
    } else {
      var k: nat :| Lingers(t, was, head, block, k);
      assert k in canon;
    }
  }

  lemma LingersAbove(t: Tree, was: Index, head: Hash, block: Hash, k: nat)
    requires WellFormed(t) && head in t && block in t && Lingers(t, was, head, block, k)
    ensures k > t[block].number
  {}

  /** The highest number the index has after the head moved from one block to another. */
  function TopAfter(t: Tree, head: Hash, top: nat, block: Hash): nat
    requires WellFormed(t) && head in t && block in t
  {
    if t[block].parent == head then if top > t[block].number then top else t[block].number
    else if CleansUp(t, head, block) then t[block].number
    else t[head].number
  }

  /** On an index without holes: what lingers is decided by its top entry. */
  lemma TopDecides(t: Tree, was: Index, canon: Index, head: Hash, top: nat, block: Hash)
    requires WellFormed(t) && head in t && block in t && IndexMoved(t, was, canon, head, block)
    requires Covers(t, was, head) && Holeless(was, top)
    ensures Holeless(canon, TopAfter(t, head, top, block))
    ensures Canonical(t, canon, block) <==> TopAfter(t, head, top, block) == t[block].number
    ensures Canonical(t, canon, block) <==> if t[block].parent == head then top <= t[block].number else CleansUp(t, head, block)
  {
    CoversNonZero(t, canon, block);
    LingersUpTo(t, was, head, top, block);
    ParentOf(t, head, block);
    hide Ancestor, WellFormed, Lingers, Fork, CleansUp;
    var top' := TopAfter(t, head, top, block);
    assert Holeless(canon, top');
    assert Canonical(t, canon, block) ==> t[block].number + 1 !in canon;
  }

  lemma CoversNonZero(t: Tree, canon: Index, h: Hash)
    requires WellFormed(t) && Covers(t, canon, h)
    ensures forall k: nat :: k <= t[h].number ==> k in canon && canon[k] != ZERO
  {
    hide Ancestor;
  }

  lemma ParentOf(t: Tree, head: Hash, block: Hash)
    requires WellFormed(t) && head in t && block in t
    ensures t[block].parent == head ==> t[block].number == t[head].number + 1
  {}

  lemma LingersUpTo(t: Tree, was: Index, head: Hash, top: nat, block: Hash)
    requires WellFormed(t) && head in t && block in t && Covers(t, was, head) && Holeless(was, top)
    ensures t[head].number <= top
    ensures forall k: nat :: Lingers(t, was, head, block, k) <==> t[block].number < k <= TopAfter(t, head, top, block)
  {
    var from := CleanFrom(t, head, block);
    assert t[head].number in was;
    GapIs(was, from + 1, if from + 1 <= top then top + 1 else from + 1);
    hide Ancestor, WellFormed, Fork, Gap, Covers;
  }

  /** Index, lookup and head, the state a head move works on. */
  datatype ChainState = ChainState(canon: Index, lookup: TxLookup, head: Hash)

  ghost predicate Moves(t: Tree, s: ChainState, r: ChainState, block: Hash)
    requires WellFormed(t)
  {
    s.head in t && block in t && r.head == block && r.lookup == MovedLookup(t, s.lookup, s.head, block) && IndexMoved(t, s.canon, r.canon, s.head, block)
  }

  /** The lookup after the head has moved: the entries of the new blocks go in from the bottom
      up, those only the old branch had come out, and the new head's are written last. */
  function MovedLookup(t: Tree, m: TxLookup, head: Hash, block: Hash): TxLookup
    requires WellFormed(t) && head in t && block in t
  {
    if t[block].parent == head then AddTxs(t, m, block)
    else
      var n := Fork(t, head, block);
      var top := Ancestor(t, block, LastWritten(t, block, n));
      AddTxs(t, Less(AddPath(t, m, top, n), TxsOf(t, Path(t, head, n)) - TxsOf(t, Path(t, top, n))), block)
  }

  lemma LookupFollows(t: Tree, head: Hash, block: Hash)
    requires WellFormed(t) && OncePerChain(t) && head in t && block in t
    ensures MovedLookup(t, TxMap(t, head), head, block) == TxMap(t, block)
  {
    hide TxMap, AddPath, AddTxs, Path, TxsOf, Less, OncePerChain, Fork;
    if t[block].parent == head {
      HeadAdded(t, head, block);
    } else {
      LookupMoves(t, head, block);
    }
  }

  lemma HeadAdded(t: Tree, head: Hash, block: Hash)
    requires WellFormed(t) && block in t && t[block].parent == head && head in t
    ensures AddTxs(t, TxMap(t, head), block) == TxMap(t, block)
  {
    TxMapSplit(t, block, t[head].number);
    PathSelf(t, head);
  }

  /** The top entry after a run of head moves. */
  function TopOfRun(t: Tree, head: Hash, top: nat, blocks: seq<Hash>): nat
    requires WellFormed(t) && head in t && forall b :: b in blocks ==> b in t
    decreases |blocks|
  {
    if blocks == [] then top else TopOfRun(t, blocks[0], TopAfter(t, head, top, blocks[0]), blocks[1..])
  }

  ghost predicate IsRun(t: Tree, states: seq<ChainState>, blocks: seq<Hash>)
    requires WellFormed(t)
  {
    |states| == |blocks| + 1 && forall i :: 0 <= i < |blocks| ==> MovesAt(t, states, blocks, i)
  }

  ghost predicate MovesAt(t: Tree, states: seq<ChainState>, blocks: seq<Hash>, i: nat)
    requires WellFormed(t) && i < |blocks| && i + 1 < |states|
  {
    Moves(t, states[i], states[i + 1], blocks[i])
  }

  /** Over every run of head moves, whatever lingers on the way: the index covers the head's
      path, the lookup lists exactly its transactions, and the index is canonical exactly when
      its top, which the blocks' numbers and forks determine, is the head's number. */
  lemma {:induction false} EveryRunCovers(t: Tree, states: seq<ChainState>, blocks: seq<Hash>, top: nat)
    requires WellFormed(t) && OncePerChain(t) && IsRun(t, states, blocks)
    requires Covers(t, states[0].canon, states[0].head) && states[0].lookup == TxMap(t, states[0].head) && Holeless(states[0].canon, top)
    requires states[0].head in t && forall b :: b in blocks ==> b in t
    ensures var s := states[|blocks|];
      && Covers(t, s.canon, s.head) && s.lookup == TxMap(t, s.head) && Locates(t, s.lookup, s.head)
      && Holeless(s.canon, TopOfRun(t, states[0].head, top, blocks))
      && (Canonical(t, s.canon, s.head) <==> TopOfRun(t, states[0].head, top, blocks) == t[s.head].number)
    decreases |blocks|
  {
    hide WellFormed, OncePerChain, TxMap, Locates, TopAfter, Covers, Holeless, IndexMoved, MovedLookup;
    if blocks == [] {
      TopIsHead(t, states[0].canon, states[0].head, top);
      LookupMeans(t, states[0].head);
    } else {
      assert MovesAt(t, states, blocks, 0);
      TopDecides(t, states[0].canon, states[1].canon, states[0].head, top, blocks[0]);
      MovedCovers(t, states[0].canon, states[1].canon, states[0].head, blocks[0]);
      LookupFollows(t, states[0].head, blocks[0]);
      forall i | 0 <= i < |blocks[1..]| ensures MovesAt(t, states[1..], blocks[1..], i) { assert MovesAt(t, states, blocks, i + 1); }
      EveryRunCovers(t, states[1..], blocks[1..], TopAfter(t, states[0].head, top, blocks[0]));
    }
  }

  lemma MovedCovers(t: Tree, was: Index, canon: Index, head: Hash, block: Hash)
    requires WellFormed(t) && head in t && block in t && IndexMoved(t, was, canon, head, block)
    ensures Covers(t, canon, block)
  {}

  lemma TopIsHead(t: Tree, canon: Index, head: Hash, top: nat)
    requires WellFormed(t) && Covers(t, canon, head) && Holeless(canon, top)
    ensures Canonical(t, canon, head) <==> top == t[head].number
  {
    hide Ancestor, WellFormed;
    assert t[head].number in canon && top in canon;
    if top == t[head].number {
      forall n: nat ensures if n <= t[head].number then n in canon && canon[n] == Ancestor(t, head, n) else n !in canon {}
    }
  }

  lemma RootedMore(t: Tree, stored: set<Hash>, block: Hash)
    requires block in t && t[block].parent in stored
    ensures Rooted(t, stored) ==> Rooted(t, stored + {block})
  {}

  /** A block that wins the fork choice over a canonical head, and whose index does not end
      with it. */
  ghost predicate LeavesEntry(t: Tree, was: Index, canon: Index, head: Hash, block: Hash) {
    && WellFormed(t) && OncePerChain(t) && head in t && block in t
    && Canonical(t, was, head) && Prefers(t, head, block, false, false, false)
    && IndexMoved(t, was, canon, head, block) && !Canonical(t, canon, block) && t[block].number + 1 in canon
  }

  /** A genesis 1, a chain 2, 3 on it, and a block 4 beside 2 that is as heavy as both. */
  ghost predicate FourBlocks(t: Tree, was: Index, canon: Index) {
    && t == map[1 := Block(ZERO, 0, 1, []), 2 := Block(1, 1, 1, []), 3 := Block(2, 2, 1, []), 4 := Block(1, 1, 2, [])]
    && was == map[0 := 1, 1 := 2, 2 := 3] && canon == map[0 := 1, 1 := 4, 2 := 3]
    && WellFormed(t) && OncePerChain(t)
  }

  lemma FourExist() returns (t: Tree, was: Index, canon: Index)
    ensures FourBlocks(t, was, canon)
  {
    t := map[1 := Block(ZERO, 0, 1, []), 2 := Block(1, 1, 1, []), 3 := Block(2, 2, 1, []), 4 := Block(1, 1, 2, [])];
    was, canon := map[0 := 1, 1 := 2, 2 := 3], map[0 := 1, 1 := 4, 2 := 3];
    assert WellFormed(t) && OncePerChain(t);
  }

  /** The stale entries do occur: a block on the genesis, as heavy as the chain of two that it
      replaces but lower, leaves the second of them on the index. */
  lemma HeavyBlockLeavesStaleEntry()
    ensures exists t, was, canon, head, block :: LeavesEntry(t, was, canon, head, block)
  {
    var t, was, canon := FourExist();
    FourPreferred(t, was, canon);
    FourIndexed(t, was, canon);
    hide WellFormed, OncePerChain, Prefers, CleansUp, Canonical, Covers, IndexMoved, Fork;
    TopDecides(t, was, canon, 3, 2, 4);
    assert LeavesEntry(t, was, canon, 3, 4);
  }

  lemma FourPreferred(t: Tree, was: Index, canon: Index)
    requires FourBlocks(t, was, canon)
    ensures Prefers(t, 3, 4, false, false, false) && !CleansUp(t, 3, 4)
  {
    hide Weight, Fork, WellFormed, OncePerChain;
    WeightRoot(t, 1);
    WeightNext(t, 2);
    WeightNext(t, 3);
    WeightNext(t, 4);
    ForkSelf(t, 1);
    ForkStep(t, 2, 4);
    ForkFirst(t, 3, 4);
  }

  lemma FourIndexed(t: Tree, was: Index, canon: Index)
    requires FourBlocks(t, was, canon)
    ensures Canonical(t, was, 3) && Covers(t, was, 3) && Holeless(was, 2) && IndexMoved(t, was, canon, 3, 4)
  {
    ShortPaths(t);
    FourPreferred(t, was, canon);
    hide WellFormed, OncePerChain, Ancestor, Prefers, CleansUp, Fork;
    assert Canonical(t, was, 3) && Covers(t, was, 3) && Covers(t, canon, 4) && Holeless(was, 2);
    LingersUpTo(t, was, 3, 2, 4);
    hide Covers, Lingers, Canonical;
    assert TopAfter(t, 3, 2, 4) == 2;
  }

  lemma ShortPaths(t: Tree)
    requires WellFormed(t) && 1 in t && 2 in t && 3 in t && 4 in t && t[1].number == 0
    requires t[2].number == 1 && t[2].parent == 1 && t[3].number == 2 && t[3].parent == 2 && t[4].number == 1 && t[4].parent == 1
    ensures Ancestor(t, 3, 0) == 1 && Ancestor(t, 3, 1) == 2 && Ancestor(t, 3, 2) == 3
    ensures Ancestor(t, 4, 0) == 1 && Ancestor(t, 4, 1) == 4
  {
    AncestorBelow(t, 3, 0);
    AncestorBelow(t, 3, 1);
    AncestorBelow(t, 2, 0);
    AncestorBelow(t, 4, 0);
  }
}
