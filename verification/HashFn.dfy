/** GetHashFn: block hashes by number for the EVM, by a memoised walk over parents. */
module HashFn {
  import opened BlockTree
  import opened Transactions

  /** uint64 arithmetic. */
  function Wrap(x: int): uint64 { x % (MAX_UINT64 + 1) }

  /** The plain walk from `hash`, expected at number `at`, down to number n: a missing header
      ends it with nothing. */
  function Walk(t: Tree, stored: set<Hash>, hash: Hash, at: nat, n: nat): Hash
    requires n <= at
    decreases at
  {
    if at == n then hash
    else if hash in stored && hash in t && t[hash].number == at then Walk(t, stored, t[hash].parent, at - 1, n)
    else ZERO
  }

  /** What the EVM should be told about number n in a block whose header is `ref`. */
  function HashAt(t: Tree, stored: set<Hash>, ref: Block, n: nat): Hash {
    if n >= ref.number then ZERO else Walk(t, stored, ref.parent, ref.number - 1, n)
  }

  /** Every header of h's path above number n is stored. */
  ghost predicate StoredAbove(t: Tree, stored: set<Hash>, h: Hash, n: nat)
    requires WellFormed(t) && h in t
  {
    forall k: nat :: n < k <= t[h].number ==> Ancestor(t, h, k) in stored
  }

  lemma StoredFirst(t: Tree, stored: set<Hash>, h: Hash, n: nat)
    requires WellFormed(t) && h in t && n < t[h].number
    ensures t[h].parent in t && t[t[h].parent].number == t[h].number - 1
    ensures StoredAbove(t, stored, h, n) <==> h in stored && StoredAbove(t, stored, t[h].parent, n)
  {
    ParentIn(t, h);
    AncestorSelf(t, h);
    forall k: nat | k < t[h].number ensures Ancestor(t, h, k) == Ancestor(t, t[h].parent, k) { AncestorBelow(t, h, k); }
    hide Ancestor, WellFormed;
  }

  /** The walk finds the ancestor of that number, if every header above it on the way is
      stored, and nothing otherwise. */
  lemma {:induction false} WalkFinds(t: Tree, stored: set<Hash>, hash: Hash, n: nat)
    requires WellFormed(t) && hash in t && n <= t[hash].number
    ensures Walk(t, stored, hash, t[hash].number, n) == if StoredAbove(t, stored, hash, n) then Ancestor(t, hash, n) else ZERO
    decreases t[hash].number
  {
    AncestorSelf(t, hash);
    if n < t[hash].number {
      StoredFirst(t, stored, hash, n);
      AncestorBelow(t, hash, n);
      hide Ancestor, WellFormed, StoredAbove;
      WalkFinds(t, stored, t[hash].parent, n);
    }
  }

  /** So BLOCKHASH on a block whose ancestors are all stored is right for every number below
      its own. */
  lemma HashAtIsAncestor(t: Tree, stored: set<Hash>, ref: Block, n: nat)
    requires WellFormed(t) && Rooted(t, stored) && ref.number > 0 && ref.parent in stored
    requires ref.parent in t && t[ref.parent].number == ref.number - 1
    ensures HashAt(t, stored, ref, n) == if n < ref.number then Ancestor(t, ref.parent, n) else ZERO
  {
    if n < ref.number {
      WalkFinds(t, stored, ref.parent, n);
      forall k: nat | n < k <= t[ref.parent].number ensures Ancestor(t, ref.parent, k) in stored { AncestorsStored(t, stored, ref.parent, k); }
    }
  }

  lemma {:induction false} AncestorsStored(t: Tree, stored: set<Hash>, h: Hash, k: nat)
    requires WellFormed(t) && Rooted(t, stored) && h in stored && h in t && k <= t[h].number
    ensures Ancestor(t, h, k) in stored
    decreases t[h].number
  {
    if k < t[h].number { AncestorsStored(t, stored, t[h].parent, k); }
  }

  /** The cache is a prefix of the ancestor hashes: each entry is the parent of the stored
      header before it, and past the genesis comes only its zero parent. */
  ghost predicate Prefix(t: Tree, stored: set<Hash>, ref: Block, cache: seq<Hash>) {
    && |cache| <= ref.number + 1
    && (|cache| > 0 ==> cache[0] == ref.parent)
    && (forall i :: 0 < i < |cache| ==> ParentAt(t, stored, ref, cache, i))
  }

  predicate ParentAt(t: Tree, stored: set<Hash>, ref: Block, cache: seq<Hash>, i: nat)
    requires 0 < i < |cache|
  {
    var child := cache[i - 1];
    child in stored && child in t && t[child].number == ref.number - i && cache[i] == t[child].parent
  }

  lemma {:induction false} PrefixWalks(t: Tree, stored: set<Hash>, ref: Block, cache: seq<Hash>, i: nat, n: nat)
    requires Prefix(t, stored, ref, cache) && i < |cache| && i < ref.number && n <= ref.number - 1 - i
    ensures HashAt(t, stored, ref, n) == Walk(t, stored, cache[i], ref.number - 1 - i, n)
    decreases i
  {
    if i > 0 {
      assert ParentAt(t, stored, ref, cache, i);
      PrefixWalks(t, stored, ref, cache, i - 1, n);
    }
  }

  lemma PastGenesis(t: Tree, stored: set<Hash>, ref: Block, cache: seq<Hash>)
    requires WellFormed(t) && Prefix(t, stored, ref, cache) && |cache| == ref.number + 1
    requires ref.number == 0 ==> ref.parent == ZERO
    ensures cache[ref.number] == ZERO
  {
    if ref.number > 0 { assert ParentAt(t, stored, ref, cache, ref.number); }
  }

  class HashGetter {
    const tree: Tree
    const stored: set<Hash>
    const ref: Block
    var cache: seq<Hash>

    ghost predicate Valid() reads this {
      && WellFormed(tree) && ref.number <= MAX_UINT64 && (ref.number == 0 ==> ref.parent == ZERO)
      && Prefix(tree, stored, ref, cache)
    }

    constructor (tree: Tree, stored: set<Hash>, ref: Block)
      requires WellFormed(tree) && ref.number <= MAX_UINT64 && (ref.number == 0 ==> ref.parent == ZERO)
      ensures Valid() && cache == [] && this.tree == tree && this.stored == stored && this.ref == ref
    {
      this.tree, this.stored, this.ref, cache := tree, stored, ref, [];
    }

    /** A query answers what the plain walk would, whatever was asked before. */
    method Get(n: uint64) returns (hash: Hash)
      requires Valid()
      modifies this
      ensures Valid() && old(cache) <= cache
      ensures hash == HashAt(tree, stored, ref, n)
    {
      hide WellFormed, Wrap, ParentAt;
      if |cache| == 0 {
        cache := [ref.parent];
      }
      var idx := Wrap(ref.number - n - 1);
      WrapIndex(ref.number, n);
      if idx < |cache| {
        Cached(tree, stored, ref, cache, n, idx);
        return cache[idx];
      }
      var lastKnownHash := cache[|cache| - 1];
      var lastKnownNumber := Wrap(ref.number - |cache|);
      WrapBelow(ref.number, |cache|);
      while true
        invariant 0 < |cache| && Valid() && old(cache) <= cache
        invariant lastKnownHash == cache[|cache| - 1]
        invariant lastKnownNumber == (if |cache| <= ref.number then ref.number - |cache| else MAX_UINT64)
        invariant n < ref.number ==> |cache| <= ref.number && n < ref.number - |cache|
        decreases ref.number + 1 - |cache|
      {
        if |cache| == ref.number + 1 { PastGenesis(tree, stored, ref, cache); NoZero(tree); }
        if n < ref.number { PrefixWalks(tree, stored, ref, cache, |cache| - 1, n); }
        if lastKnownHash !in stored || lastKnownHash !in tree || tree[lastKnownHash].number != lastKnownNumber {
          break;
        }
        var header := tree[lastKnownHash];
        PrefixGrows(tree, stored, ref, cache);
        cache := cache + [header.parent];
        lastKnownHash := header.parent;
        lastKnownNumber := Wrap(header.number - 1);
        WrapBelow(header.number, 1);
        if n == lastKnownNumber {
          if n < ref.number {
            PrefixWalks(tree, stored, ref, cache, |cache| - 1, n);
          } else {
            PastGenesis(tree, stored, ref, cache);
          }
          return lastKnownHash;
        }
      }
      return ZERO;
    }
  }

  lemma PrefixGrows(t: Tree, stored: set<Hash>, ref: Block, cache: seq<Hash>)
    requires Prefix(t, stored, ref, cache) && 0 < |cache| <= ref.number
    requires var h := cache[|cache| - 1]; h in stored && h in t && t[h].number == ref.number - |cache|
    ensures Prefix(t, stored, ref, cache + [t[cache[|cache| - 1]].parent])
  {
    var r := cache + [t[cache[|cache| - 1]].parent];
    forall i | 0 < i < |r| ensures ParentAt(t, stored, ref, r, i) {
      if i < |cache| { assert ParentAt(t, stored, ref, cache, i); }
    }
  }

  lemma NoZero(t: Tree)
    requires WellFormed(t)
    ensures ZERO !in t
  {}

  lemma WrapIndex(number: nat, n: uint64)
    requires number <= MAX_UINT64
    ensures Wrap(number - n - 1) == if n < number then number - n - 1 else number + (MAX_UINT64 - n)
  {}

  lemma WrapBelow(number: nat, k: nat)
    requires number <= MAX_UINT64 && 0 < k <= number + 1
    ensures Wrap(number - k) == if k <= number then number - k else MAX_UINT64
  {}

  lemma Cached(t: Tree, stored: set<Hash>, ref: Block, cache: seq<Hash>, n: uint64, idx: nat)
    requires WellFormed(t) && Prefix(t, stored, ref, cache) && ref.number <= MAX_UINT64 && (ref.number == 0 ==> ref.parent == ZERO)
    requires idx < |cache| && idx == if n < ref.number then ref.number - n - 1 else ref.number + (MAX_UINT64 - n)
    ensures cache[idx] == HashAt(t, stored, ref, n)
  {
    if n < ref.number {
      PrefixWalks(t, stored, ref, cache, idx, n);
    } else {
      PastGenesis(t, stored, ref, cache);
    }
  }
}
