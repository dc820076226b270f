/** Blocks by hash: the tree every chain is a path of, and what it means for a number index to
    describe one of its paths. */
module BlockTree {

  type Hash = nat

  /** What a database read returns for a missing hash. */
  const ZERO: Hash := 0

  datatype Block = Block(parent: Hash, number: nat, difficulty: nat, txs: seq<nat>)

  /** The block behind every hash. Hashing is injective, so this never changes. */
  type Tree = map<Hash, Block>

  type Index = map<nat, Hash>

  /** One genesis, and every other block numbered one above its parent. */
  ghost predicate WellFormed(t: Tree) {
    && ZERO !in t
    && (forall h :: h in t && t[h].number > 0 ==> t[h].parent in t && t[t[h].parent].number == t[h].number - 1)
    && (forall h :: h in t && t[h].number == 0 ==> t[h].parent == ZERO)
    && (forall h, k :: h in t && k in t && t[h].number == 0 && t[k].number == 0 ==> h == k)
  }

  /** The block reached from h by following parents down to number n. */
  function Ancestor(t: Tree, h: Hash, n: nat): (r: Hash)
    requires WellFormed(t) && h in t && n <= t[h].number
    ensures r in t && t[r].number == n
    decreases t[h].number
  {
    if t[h].number == n then h else Ancestor(t, t[h].parent, n)
  }

  lemma ParentIn(t: Tree, h: Hash)
    requires WellFormed(t) && h in t && t[h].number > 0
    ensures t[h].parent in t && t[t[h].parent].number == t[h].number - 1
  {}

  lemma AncestorSelf(t: Tree, h: Hash)
    requires WellFormed(t) && h in t
    ensures Ancestor(t, h, t[h].number) == h
  {}

  lemma AncestorBelow(t: Tree, h: Hash, n: nat)
    requires WellFormed(t) && h in t && n < t[h].number
    ensures t[h].parent in t && t[t[h].parent].number == t[h].number - 1
    ensures Ancestor(t, h, n) == Ancestor(t, t[h].parent, n)
  {}

  lemma {:induction false} AncestorTrans(t: Tree, h: Hash, m: nat, n: nat)
    requires WellFormed(t) && h in t && n <= m <= t[h].number
    ensures Ancestor(t, Ancestor(t, h, m), n) == Ancestor(t, h, n)
    decreases t[h].number
  {
    if t[h].number > m {
      AncestorTrans(t, t[h].parent, m, n);
    }
  }

  /** Total difficulty of the chain that ends in h. */
  function Weight(t: Tree, h: Hash): nat
    requires WellFormed(t) && h in t
    decreases t[h].number
  {
    t[h].difficulty + if t[h].number == 0 then 0 else Weight(t, t[h].parent)
  }

  lemma WeightNext(t: Tree, block: Hash)
    requires WellFormed(t) && block in t && t[block].number > 0
    ensures t[block].parent in t && Weight(t, block) == Weight(t, t[block].parent) + t[block].difficulty
  {}

  lemma WeightRoot(t: Tree, h: Hash)
    requires WellFormed(t) && h in t && t[h].number == 0
    ensures Weight(t, h) == t[h].difficulty
  {}

  /** Every stored block's recorded weight is right. */
  ghost predicate Weighed(t: Tree, stored: set<Hash>, td: map<Hash, nat>)
    requires WellFormed(t)
  {
    td.Keys == stored && forall h :: h in stored && h in t ==> td[h] == Weight(t, h)
  }

  /** The index lists exactly the ancestor path of head, with nothing above it. */
  ghost predicate Canonical(t: Tree, canon: Index, head: Hash)
    requires WellFormed(t)
  {
    head in t && forall n: nat :: if n <= t[head].number then n in canon && canon[n] == Ancestor(t, head, n) else n !in canon
  }

  /** The index agrees with h's ancestor path as far as that goes. */
  ghost predicate Covers(t: Tree, canon: Index, h: Hash)
    requires WellFormed(t)
  {
    h in t && forall n: nat :: n <= t[h].number ==> n in canon && canon[n] == Ancestor(t, h, n)
  }

  /** Stored blocks come with their ancestors. */
  ghost predicate Rooted(t: Tree, stored: set<Hash>) {
    forall h :: h in stored ==> h in t && (t[h].number > 0 ==> t[h].parent in stored)
  }

  function Lookup(canon: Index, n: nat): Hash { if n in canon then canon[n] else ZERO }

  /** The numbers from n on that the index has. */
  ghost function EntriesFrom(canon: Index, n: nat): set<nat> { set k | k in canon && k >= n }

  /** The first number from n on that reads as missing. */
  ghost function Gap(canon: Index, n: nat): (g: nat)
    ensures g >= n && Lookup(canon, g) == ZERO && forall k: nat :: n <= k < g ==> Lookup(canon, k) != ZERO
    decreases EntriesFrom(canon, n)
  {
    if Lookup(canon, n) == ZERO then n
    else
      GapEnds(canon, n);
      Gap(canon, n + 1)
  }

  lemma GapEnds(canon: Index, n: nat)
    requires Lookup(canon, n) != ZERO
    ensures EntriesFrom(canon, n + 1) < EntriesFrom(canon, n)
  {
    assert n in EntriesFrom(canon, n);
  }

  lemma GapIs(canon: Index, n: nat, g: nat)
    requires g >= n && Lookup(canon, g) == ZERO && forall k: nat :: n <= k < g ==> Lookup(canon, k) != ZERO
    ensures Gap(canon, n) == g
  {
    var h := Gap(canon, n);
    assert Lookup(canon, h) == ZERO && Lookup(canon, g) == ZERO;
  }

  /** The index has an entry for every number up to top, and none above. */
  ghost predicate Holeless(canon: Index, top: nat) {
    forall k: nat :: (k in canon <==> k <= top) && (k in canon ==> canon[k] != ZERO)
  }

  function Without(canon: Index, n: nat): Index { map k | k in canon && k != n :: canon[k] }

  lemma GenesisIsCanonical(t: Tree, canon: Index, head: Hash, h: Hash)
    requires WellFormed(t) && Canonical(t, canon, head) && h in t
    ensures Lookup(canon, 0) == Ancestor(t, h, 0)
  {}

  /** An index entry met on the way down from h makes everything below agree with h. */
  lemma MeetsCanonical(t: Tree, canon: Index, head: Hash, h: Hash, n: nat)
    requires WellFormed(t) && Canonical(t, canon, head) && h in t && n <= t[h].number
    requires Lookup(canon, n) == Ancestor(t, h, n)
    ensures forall k: nat :: k <= n ==> k in canon && canon[k] == Ancestor(t, h, k)
  {
    assert n in canon;
    forall k: nat | k <= n ensures k in canon && canon[k] == Ancestor(t, h, k) {
      AncestorTrans(t, h, n, k);
      AncestorTrans(t, head, n, k);
    }
  }
}
