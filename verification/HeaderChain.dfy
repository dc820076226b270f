/** HeaderChain: the stored headers, their total difficulties, and the canonical index. */
module HeaderChains {
  import opened BlockTree
  import opened Transactions

  datatype WriteStatus = NonStat | Canon | Side

  datatype WriteResult =
    | Written(status: WriteStatus, ignored: nat, imported: nat, last: Hash)
    | NothingToWrite
    | UnknownAncestor

  /** Every block but the genesis makes its chain heavier. */
  ghost predicate Positive(t: Tree) { forall h :: h in t && t[h].number > 0 ==> t[h].difficulty > 0 }

  /** Each header's parent is the one before it. */
  ghost predicate Contiguous(t: Tree, batch: seq<Hash>) {
    && (forall i :: 0 <= i < |batch| ==> batch[i] in t)
    && (forall i :: 0 < i < |batch| ==> t[batch[i]].parent == batch[i - 1] && t[batch[i]].number == t[batch[i - 1]].number + 1)
  }

  /** h is strictly ahead of g: heavier, or as heavy and lower. */
  ghost predicate Ahead(t: Tree, h: Hash, g: Hash)
    requires WellFormed(t) && h in t && g in t
  {
    Weight(t, h) > Weight(t, g) || (Weight(t, h) == Weight(t, g) && t[h].number < t[g].number)
  }

  /** h is tied with g: as heavy and as high. */
  ghost predicate Tied(t: Tree, h: Hash, g: Hash)
    requires WellFormed(t) && h in t && g in t
  {
    Weight(t, h) == Weight(t, g) && t[h].number == t[g].number
  }

  ghost predicate NoneAhead(t: Tree, stored: set<Hash>, head: Hash)
    requires WellFormed(t)
  {
    head in t && forall h :: h in stored && h in t ==> !Ahead(t, h, head)
  }

  /** The index has one entry for every number up to the head's, starting at the genesis.
      It need not list the head's path. */
  ghost predicate Seated(t: Tree, canon: Index, head: Hash)
    requires WellFormed(t)
  {
    head in t && Holeless(canon, t[head].number) && canon[0] == Ancestor(t, head, 0)
  }

  /** The index lists stored headers under their own numbers. */
  ghost predicate Numbered(t: Tree, stored: set<Hash>, canon: Index) {
    forall k :: k in canon ==> canon[k] in stored && canon[k] in t && t[canon[k]].number == k
  }

  datatype HeaderState = HeaderState(stored: set<Hash>, td: map<Hash, nat>, canon: Index, head: Hash)

  /** Ancestors and weights are in place, no stored header is ahead of the head, and the
      index is seated. */
  ghost predicate Good(t: Tree, s: HeaderState)
    requires WellFormed(t)
  {
    && Rooted(t, s.stored) && Weighed(t, s.stored, s.td)
    && s.head in s.stored && NoneAhead(t, s.stored, s.head)
    && Seated(t, s.canon, s.head) && Numbered(t, s.stored, s.canon)
  }

  /** The first number, from n down, at which the index meets h's path. */
  ghost function Meet(t: Tree, canon: Index, h: Hash, n: nat): (m: nat)
    requires WellFormed(t) && h in t && n <= t[h].number
    ensures m <= n
    ensures m == 0 || Lookup(canon, m) == Ancestor(t, h, m)
  {
    if n == 0 || Lookup(canon, n) == Ancestor(t, h, n) then n else Meet(t, canon, h, n - 1)
  }

  /** The index after the head moved to the last header of a batch: nothing above it; the
      batch's own numbers, left alone if all of it was stored; below, when the batch does not
      extend the head, the new path down to where the old index meets it. */
  ghost predicate Reindexed(t: Tree, was: Index, canon: Index, head: Hash, batch: seq<Hash>, known: bool)
    requires WellFormed(t) && Contiguous(t, batch) && batch != [] && t[batch[0]].parent in t && t[batch[0]].number > 0
  {
    forall k: nat ::
      && (k in canon <==> k <= t[batch[|batch| - 1]].number)
      && (k in canon ==> canon[k] == NewEntry(t, was, head, batch, known, k))
  }

  ghost function NewEntry(t: Tree, was: Index, head: Hash, batch: seq<Hash>, known: bool, k: nat): Hash
    requires WellFormed(t) && Contiguous(t, batch) && batch != [] && t[batch[0]].parent in t && t[batch[0]].number > 0
  {
    var parent, first := t[batch[0]].parent, t[batch[0]].number;
    if first <= k < first + |batch| then (if known then Lookup(was, k) else batch[k - first])
    else if parent != head && k <= t[parent].number && k > Meet(t, was, parent, t[parent].number) then Ancestor(t, parent, k)
    else Lookup(was, k)
  }

  /** The head moves to h: it is ahead, or tied and lucky. */
  ghost predicate Wins(t: Tree, h: Hash, head: Hash, coin: bool)
    requires WellFormed(t) && h in t && head in t
  {
    Ahead(t, h, head) || (Tied(t, h, head) && coin)
  }

  /** What importing a batch with a stored parent makes of a state. */
  ghost predicate Imports(t: Tree, s: HeaderState, r: HeaderState, batch: seq<Hash>, coin: bool)
    requires WellFormed(t)
  {
    && Contiguous(t, batch) && batch != [] && s.head in t && t[batch[0]].parent in t && t[batch[0]].number > 0
    && t[batch[0]].parent in s.stored
    && r.stored == s.stored + Members(batch) && Weighed(t, r.stored, r.td)
    && var last := batch[|batch| - 1];
      if Wins(t, last, s.head, coin)
      then r.head == last && Reindexed(t, s.canon, r.canon, s.head, batch, last in s.stored)
      else r.head == s.head && r.canon == s.canon
  }

  class HeaderChain {
    const tree: Tree
    var stored: set<Hash>
    var td: map<Hash, nat>
    var canon: Index
    var head: Hash

    function State(): HeaderState reads this { HeaderState(stored, td, canon, head) }

    ghost predicate Valid() reads this {
      WellFormed(tree) && Positive(tree) && Good(tree, State())
    }

    constructor (tree: Tree, genesis: Hash)
      requires WellFormed(tree) && Positive(tree) && genesis in tree && tree[genesis].number == 0
      ensures Valid() && this.tree == tree && stored == {genesis} && head == genesis && Canonical(tree, canon, head)
    {
      this.tree, stored, head := tree, {genesis}, genesis;
      td, canon := map[genesis := tree[genesis].difficulty], map[0 := genesis];
      FreshChain(tree, genesis);
    }

    /** writeHeaders. `coin` decides between heads that are tied. */
    method WriteHeaders(batch: seq<Hash>, coin: bool) returns (r: WriteResult)
      requires Valid() && Contiguous(tree, batch)
      modifies this
      ensures Valid() && !Ahead(tree, old(head), head)
      ensures r.NothingToWrite? <==> batch == []
      ensures r.UnknownAncestor? <==> batch != [] && tree[batch[0]].parent !in old(stored)
      ensures !r.Written? ==> State() == old(State())
      ensures r.Written? ==>
        var last := batch[|batch| - 1];
        && Imports(tree, old(State()), State(), batch, coin)
        && r.last == last && r.imported + r.ignored == |batch|
        && (r.imported == 0 <==> last in old(stored)) && (r.status.NonStat? <==> last in old(stored))
        && (r.status.Canon? <==> last !in old(stored) && head == last)
    {
      hide WellFormed, Weight, Rooted, Weighed, Positive, NoneAhead, Split, Ancestor, Seated, Reindexed, Good, Ahead, Tied, Numbered;
      ghost var was := State();
      GoodMeans(tree, was);
      AheadOfItself(tree, head);
      if batch == [] {
        return NothingToWrite;
      }
      var parent := tree[batch[0]].parent;
      if parent !in td {
        return UnknownAncestor;
      }
      var localTD := td[head];
      StoreNone(tree, stored, td, batch);
      var newTD, inserted, firstInserted := Store(batch);
      var last := batch[|batch| - 1];
      var reorg := newTD > localTD;
      if !reorg && newTD == localTD {
        if tree[last].number < tree[head].number {
          reorg := true;
        } else if tree[last].number == tree[head].number {
          reorg := coin;
        }
      }
      ChoiceIs(tree, last, head, coin);
      SplitMeans(was.stored, batch, inserted, firstInserted);
      if reorg {
        ReorgCases(tree, was.stored, head, batch, inserted, firstInserted);
        if parent == head {
          canon := Extend(tree, canon, inserted);
          PiledUp(tree, was.canon, head, batch);
        } else {
          canon := Rewrite(batch, inserted, firstInserted);
        }
        head := last;
      }
      ImportKeeps(tree, was, State(), batch, coin);
      return Written(if inserted == [] then NonStat else if reorg then Canon else Side, |batch| - |inserted|, |inserted|, last);
    }

    /** Stores the headers that are new. Once one is, so are all that follow it. */
    method Store(batch: seq<Hash>) returns (newTD: nat, inserted: seq<Hash>, firstInserted: int)
      requires Valid() && Contiguous(tree, batch) && batch != [] && tree[batch[0]].parent in stored
      modifies this`stored, this`td
      ensures Rooted(tree, stored) && Weighed(tree, stored, td)
      ensures stored == old(stored) + Members(batch)
      ensures newTD == Weight(tree, batch[|batch| - 1])
      ensures Split(old(stored), batch, inserted, firstInserted)
    {
      hide WellFormed, Rooted, Weighed, Split, Weight, Positive, NoneAhead, Seated, Good, Before, Contiguous, Members, Numbered;
      ghost var was := stored;
      InTree(tree, batch);
      GoodMeans(tree, State());
      StoreNone(tree, was, td, batch);
      newTD, inserted, firstInserted := td[tree[batch[0]].parent], [], -1;
      var parentKnown := true;
      for i := 0 to |batch|
        invariant Rooted(tree, stored) && Weighed(tree, stored, td)
        invariant stored == was + Members(batch[..i])
        invariant Before(tree, batch, i) in stored && Before(tree, batch, i) in tree && newTD == Weight(tree, Before(tree, batch, i))
        invariant Split(was, batch[..i], inserted, firstInserted)
        invariant parentKnown <==> firstInserted < 0
        invariant i > 0 ==> Before(tree, batch, i) == batch[i - 1]
      {
        var hash := batch[i];
        newTD := newTD + tree[hash].difficulty;
        StoreStep(tree, stored, td, batch, i, newTD);
        SplitNext(tree, was, batch, i, inserted, firstInserted);
        NotYet(tree, was, batch, i);
        var alreadyKnown := parentKnown && hash in stored;
        if !alreadyKnown {
          stored, td := stored + {hash}, td[hash := newTD];
          inserted := inserted + [hash];
          if firstInserted < 0 {
            firstInserted := i;
          }
        }
        parentKnown := alreadyKnown;
      }
      assert batch[..|batch|] == batch;
    }

    /** Drops the index entries above the new head. */
    method TrimAbove(last: Hash) returns (marks: Index)
      requires head in tree && Holeless(canon, tree[head].number) && last in tree
      ensures marks == map n | n in canon && n <= tree[last].number :: canon[n]
    {
      marks := canon;
      var i := tree[last].number + 1;
      while Lookup(canon, i) != ZERO
        invariant i > tree[last].number
        invariant marks == map n | n in canon && !(tree[last].number < n < i) :: canon[n]
        decreases tree[head].number + 1 - i
      {
        marks := Without(marks, i);
        i := i + 1;
      }
    }

    /** Overwrites the stale entries below h, down to where the index as it was meets h's
        path. */
    method PatchBelow(trimmed: Index, h: Hash) returns (marks: Index)
      requires WellFormed(tree) && h in tree && Lookup(canon, 0) == Ancestor(tree, h, 0)
      ensures forall n: nat :: if Meet(tree, canon, h, tree[h].number) < n <= tree[h].number
        then n in marks && marks[n] == Ancestor(tree, h, n)
        else (n in marks <==> n in trimmed) && (n in trimmed ==> marks[n] == trimmed[n])
    {
      hide Ancestor, WellFormed;
      marks := trimmed;
      AncestorSelf(tree, h);
      var headHash, headNumber: nat := h, tree[h].number;
      while Lookup(canon, headNumber) != headHash
        invariant headNumber <= tree[h].number && headHash == Ancestor(tree, h, headNumber)
        invariant Meet(tree, canon, h, tree[h].number) == Meet(tree, canon, h, headNumber)
        invariant forall n: nat :: if headNumber < n <= tree[h].number
          then n in marks && marks[n] == Ancestor(tree, h, n)
          else (n in marks <==> n in trimmed) && (n in trimmed ==> marks[n] == trimmed[n])
        decreases headNumber
      {
        assert headNumber > 0;
        AncestorStep(tree, h, headNumber);
        marks := marks[headNumber := headHash];
        headHash := tree[headHash].parent;
        headNumber := headNumber - 1;
      }
    }

    /** The new index when the head moves to a chain that does not simply extend it. */
    method Rewrite(batch: seq<Hash>, inserted: seq<Hash>, firstInserted: int) returns (marks: Index)
      requires WellFormed(tree) && Seated(tree, canon, head) && Contiguous(tree, batch) && batch != []
      requires tree[batch[0]].parent in tree && tree[batch[0]].number > 0 && tree[batch[0]].parent != head
      requires firstInserted < |batch| && inserted == batch[if firstInserted < 0 then |batch| else firstInserted..]
      requires firstInserted < 0 ==> tree[batch[|batch| - 1]].number == tree[head].number
      ensures Reindexed(tree, canon, marks, head, batch, firstInserted < 0)
    {
      hide WellFormed, Ancestor, Extend, Reindexed, Meet, Covers;
      var parent := tree[batch[0]].parent;
      ParentIn(tree, batch[0]);
      NumberOf(tree, batch, |batch| - 1);
      GenesisShared(tree, head, parent);
      marks := TrimAbove(batch[|batch| - 1]);
      ghost var trimmed := marks;
      marks := PatchBelow(marks, parent);
      ghost var patched := marks;
      var k := if firstInserted < 0 then 0 else firstInserted;
      marks := Extend(tree, marks, batch[..k]);
      marks := Extend(tree, marks, inserted);
      ExtendRuns(tree, patched, batch, k, inserted);
      Rewritten(tree, canon, trimmed, patched, marks, head, batch, firstInserted < 0);
    }

    /** GetAncestor. `budget` is the counter behind maxNonCanonical, before and after. */
    method GetAncestor(hash: Hash, number: nat, ancestor: nat, budget: nat) returns (r: Hash, n: nat, left: nat)
      requires Valid()
      ensures hash != ZERO ==>
        && (ancestor > 0 && (ancestor > number || !Known(hash, number)) ==> r == ZERO && n == 0)
        && (ancestor == 0 ==> r == hash && n == number)
        && (ancestor == 1 <= number && Known(hash, number) ==> r == tree[hash].parent && n == number - 1)
        && (1 < ancestor <= number && Known(hash, number) ==> Answers(tree, canon, hash, ancestor, budget, r, n, left))
      ensures hash == ZERO && 1 < ancestor <= number && number !in canon ==> r == Lookup(canon, number - ancestor)
      ensures left <= budget && (ancestor <= 1 || ancestor > number ==> left == budget)
    {
      hide WellFormed, Weighed, Weight, Positive, NoneAhead, Good, Numbered, Seated, Rooted, Answers;
      GoodMeans(tree, State());
      if hash in stored { RootedIn(tree, stored, hash); }
      if ancestor > number {
        return ZERO, 0, budget;
      }
      if ancestor == 1 {
        if hash in stored && tree[hash].number == number {
          return tree[hash].parent, number - 1, budget;
        }
        return ZERO, 0, budget;
      }
      r, n, left := WalkBack(hash, number, ancestor, budget);
      if hash != ZERO && Lookup(canon, number) == hash { OnIndexKnown(tree, stored, canon, hash, number); }
      NoEntry(canon, number);
    }

    /** The header can be read under this number. */
    ghost predicate Known(hash: Hash, number: nat) reads this {
      hash in stored && hash in tree && tree[hash].number == number
    }

    /** Its loop: by parents until the index is met, and from there by the index. */
    method WalkBack(hash: Hash, number: nat, ancestor: nat, budget: nat) returns (r: Hash, n: nat, left: nat)
      requires Valid() && ancestor <= number
      ensures ancestor == 0 ==> r == hash && n == number && left == budget
      ensures ancestor > 0 && Known(hash, number) ==> Answers(tree, canon, hash, ancestor, budget, r, n, left)
      ensures ancestor > 0 && !Known(hash, number) ==>
        if Lookup(canon, number) == hash then r == Lookup(canon, number - ancestor) else r == ZERO && n == 0
      ensures left <= budget
    {
      hide WellFormed, Weighed, Weight, Positive, NoneAhead, Good, Numbered, Seated, Rooted, Reached, Answers, Ancestor, Meet, Lookup;
      GoodMeans(tree, State());
      left := budget;
      ghost var known := Known(hash, number);
      if known { PathStart(tree, stored, canon, hash); }
      r, n := hash, number;
      var remaining: nat := ancestor;
      while remaining != 0
        invariant remaining <= ancestor && n == number - (ancestor - remaining) && left == budget - (ancestor - remaining)
        invariant known ==> Reached(tree, stored, canon, hash, r, n)
        invariant !known ==> remaining == ancestor && r == hash
        invariant ancestor == 0 ==> r == hash
        decreases remaining
      {
        if Lookup(canon, n) == r {
          if known { MeetsHere(tree, stored, canon, hash, r, n, ancestor, budget); }
          return Lookup(canon, n - remaining), n - remaining, left;
        }
        if known { ReachedStep(tree, stored, canon, head, hash, r, n, ancestor, budget); }
        if left == 0 {
          return ZERO, 0, left;
        }
        left := left - 1;
        remaining := remaining - 1;
        if r !in stored {
          return ZERO, 0, left;
        }
        RootedIn(tree, stored, r);
        if tree[r].number != n {
          return ZERO, 0, left;
        }
        r := tree[r].parent;
        n := n - 1;
      }
      if known { WalkedAll(tree, stored, canon, hash, r, n, ancestor, budget); }
    }
  }

  lemma NoEntry(canon: Index, n: nat)
    ensures n !in canon ==> Lookup(canon, n) == ZERO
  {}

  /** What the index answers for number k below h: from where h's path meets it on down, its
      own entries. */
  ghost function Answer(t: Tree, canon: Index, h: Hash, k: nat): Hash
    requires WellFormed(t) && h in t && k <= t[h].number
  {
    if k >= Meet(t, canon, h, t[h].number) then Ancestor(t, h, k) else Lookup(canon, k)
  }

  /** The answer for h's ancestor, if the budget covers the blocks of the path that lie off
      the index. */
  ghost predicate Answers(t: Tree, canon: Index, h: Hash, ancestor: nat, budget: nat, r: Hash, n: nat, left: nat)
    requires WellFormed(t) && h in t && ancestor <= t[h].number
  {
    var spent := Min(ancestor, t[h].number - Meet(t, canon, h, t[h].number));
    if spent <= budget then n == t[h].number - ancestor && r == Answer(t, canon, h, n) && left == budget - spent
    else r == ZERO && n == 0 && left == 0
  }

  /** The answers are h's ancestors, all of them, exactly when the index stays on h's path
      below the number where it meets it. */
  lemma AnswersRight(t: Tree, canon: Index, head: Hash, h: Hash)
    requires WellFormed(t) && Seated(t, canon, head) && h in t
    ensures (forall k: nat :: k <= t[h].number ==> AnswerIsRight(t, canon, h, k)) <==> Stitches(t, canon, h)
  {
    GenesisShared(t, head, h);
    assert Lookup(canon, 0) == Ancestor(t, h, 0);
    hide Ancestor, WellFormed, Seated, Meet, AnswerIsRight;
    var m := Meet(t, canon, h, t[h].number);
    forall k: nat | k <= t[h].number ensures AnswerIsRight(t, canon, h, k) <==> k > m || Lookup(canon, k) == Ancestor(t, h, k) {
      RightAt(t, canon, h, k);
    }
    if forall k: nat :: k <= t[h].number ==> AnswerIsRight(t, canon, h, k) {
      forall k: nat | k <= m ensures Lookup(canon, k) == Ancestor(t, h, k) { assert AnswerIsRight(t, canon, h, k); }
    }
  }

  ghost predicate AnswerIsRight(t: Tree, canon: Index, h: Hash, k: nat)
    requires WellFormed(t) && h in t && k <= t[h].number
  {
    Answer(t, canon, h, k) == Ancestor(t, h, k)
  }

  lemma RightAt(t: Tree, canon: Index, h: Hash, k: nat)
    requires WellFormed(t) && h in t && k <= t[h].number && Lookup(canon, 0) == Ancestor(t, h, 0)
    ensures var m := Meet(t, canon, h, t[h].number);
      AnswerIsRight(t, canon, h, k) <==> k > m || Lookup(canon, k) == Ancestor(t, h, k)
  {
    hide Ancestor, WellFormed, Meet;
  }

  /** The walk from h has come down to r at number n without meeting the index above it. */
  ghost predicate Reached(t: Tree, stored: set<Hash>, canon: Index, h: Hash, r: Hash, n: nat)
    requires WellFormed(t)
  {
    && h in t && n <= t[h].number && r in stored && r in t && t[r].number == n && r == Ancestor(t, h, n) && r != ZERO
    && Meet(t, canon, h, t[h].number) == Meet(t, canon, h, n)
  }

  lemma RootedIn(t: Tree, stored: set<Hash>, h: Hash)
    requires WellFormed(t) && Rooted(t, stored) && h in stored
    ensures h in t && h != ZERO && (t[h].number > 0 ==> t[h].parent in stored)
  {}

  lemma {:induction false} AncestorStored(t: Tree, stored: set<Hash>, h: Hash, n: nat)
    requires WellFormed(t) && Rooted(t, stored) && h in stored && h in t && n <= t[h].number
    ensures Ancestor(t, h, n) in stored
    decreases t[h].number
  {
    if t[h].number > n { AncestorStored(t, stored, t[h].parent, n); }
  }

  lemma PathStart(t: Tree, stored: set<Hash>, canon: Index, h: Hash)
    requires WellFormed(t) && Rooted(t, stored) && h in stored && h in t
    ensures Reached(t, stored, canon, h, h, t[h].number)
  {
    AncestorSelf(t, h);
  }

  /** A hash that the index lists is known, under that number. */
  lemma OnIndexKnown(t: Tree, stored: set<Hash>, canon: Index, h: Hash, n: nat)
    requires Numbered(t, stored, canon) && h != ZERO && Lookup(canon, n) == h
    ensures h in stored && h in t && t[h].number == n
  {
    assert n in canon;
  }

  /** Met on the way, after number(h) - n blocks: the index answers. */
  lemma MeetsHere(t: Tree, stored: set<Hash>, canon: Index, h: Hash, r: Hash, n: nat, ancestor: nat, budget: nat)
    requires WellFormed(t) && Reached(t, stored, canon, h, r, n) && Lookup(canon, n) == r
    requires t[h].number - n < ancestor <= t[h].number && t[h].number - n <= budget
    ensures var k: nat := t[h].number - ancestor; Answers(t, canon, h, ancestor, budget, Lookup(canon, k), k, budget - (t[h].number - n))
  {
    hide Ancestor;
  }

  /** Not met yet: the walk goes on, or the budget does not cover it. */
  lemma ReachedStep(t: Tree, stored: set<Hash>, canon: Index, head: Hash, h: Hash, r: Hash, n: nat, ancestor: nat, budget: nat)
    requires WellFormed(t) && Seated(t, canon, head) && Rooted(t, stored)
    requires Reached(t, stored, canon, h, r, n) && Lookup(canon, n) != r
    requires t[h].number - n < ancestor <= t[h].number && t[h].number - n <= budget
    ensures n > 0 && r in stored && r in t && t[r].number == n && Reached(t, stored, canon, h, t[r].parent, n - 1)
    ensures t[h].number - n == budget ==> Answers(t, canon, h, ancestor, budget, ZERO, 0, 0)
  {
    GenesisShared(t, head, h);
    assert n > 0;
    AncestorStep(t, h, n);
    RootedIn(t, stored, r);
    RootedIn(t, stored, t[r].parent);
    hide Ancestor, WellFormed, Rooted;
    assert Meet(t, canon, h, n) <= n - 1;
  }

  lemma WalkedAll(t: Tree, stored: set<Hash>, canon: Index, h: Hash, r: Hash, n: nat, ancestor: nat, budget: nat)
    requires WellFormed(t) && Reached(t, stored, canon, h, r, n) && n == t[h].number - ancestor && ancestor <= budget
    ensures Answers(t, canon, h, ancestor, budget, r, n, budget - ancestor)
  {
    hide Ancestor;
  }

  /** The markers written for a run of headers. */
  function Extend(t: Tree, canon: Index, headers: seq<Hash>): Index
    requires forall h :: h in headers ==> h in t
  {
    if headers == [] then canon
    else
      var h := headers[|headers| - 1];
      Extend(t, canon, headers[..|headers| - 1])[t[h].number := h]
  }

  /** The headers of the batch are divided into those already stored and the new rest. */
  ghost predicate Split(stored: set<Hash>, batch: seq<Hash>, inserted: seq<Hash>, firstInserted: int) {
    var k := if firstInserted < 0 then |batch| else firstInserted;
    && k <= |batch| && (firstInserted >= 0 ==> k < |batch|)
    && inserted == batch[k..]
    && (forall i :: 0 <= i < k ==> batch[i] in stored)
    && (forall i :: k <= i < |batch| ==> batch[i] !in stored)
  }

  lemma {:induction false} NumberOf(t: Tree, batch: seq<Hash>, i: nat)
    requires Contiguous(t, batch) && i < |batch|
    ensures t[batch[i]].number == t[batch[0]].number + i
  {
    if i > 0 { NumberOf(t, batch, i - 1); }
  }

  lemma AncestorStep(t: Tree, h: Hash, n: nat)
    requires WellFormed(t) && h in t && 0 < n <= t[h].number
    ensures t[Ancestor(t, h, n)].parent == Ancestor(t, h, n - 1)
  {
    AncestorTrans(t, h, n, n - 1);
  }

  lemma SplitNext(t: Tree, stored: set<Hash>, batch: seq<Hash>, i: nat, inserted: seq<Hash>, firstInserted: int)
    requires Rooted(t, stored) && Contiguous(t, batch) && i < |batch| && t[batch[0]].number > 0
    requires Split(stored, batch[..i], inserted, firstInserted)
    ensures firstInserted < 0 && batch[i] in stored ==> Split(stored, batch[..i + 1], inserted, firstInserted)
    ensures batch[i] !in stored ==> Split(stored, batch[..i + 1], inserted + [batch[i]], if firstInserted < 0 then i else firstInserted)
    ensures firstInserted >= 0 ==> batch[i] !in stored
  {
    NumberOf(t, batch, i);
    if firstInserted >= 0 { assert batch[..i][i - 1] !in stored; }
  }

  lemma GoodMeans(t: Tree, s: HeaderState)
    requires WellFormed(t) && Good(t, s)
    ensures s.head in t && s.head in s.stored && s.td.Keys == s.stored && s.td[s.head] == Weight(t, s.head)
    ensures Rooted(t, s.stored) && Weighed(t, s.stored, s.td) && NoneAhead(t, s.stored, s.head) && Seated(t, s.canon, s.head)
    ensures Numbered(t, s.stored, s.canon)
  {}

  lemma ChoiceIs(t: Tree, last: Hash, head: Hash, coin: bool)
    requires WellFormed(t) && last in t && head in t
    ensures Wins(t, last, head, coin) <==>
      || Weight(t, last) > Weight(t, head)
      || (Weight(t, last) == Weight(t, head) && t[last].number < t[head].number)
      || (Weight(t, last) == Weight(t, head) && t[last].number == t[head].number && coin)
  {}

  lemma AheadOfItself(t: Tree, h: Hash)
    requires WellFormed(t) && h in t
    ensures !Ahead(t, h, h)
  {}

  lemma SplitMeans(stored: set<Hash>, batch: seq<Hash>, inserted: seq<Hash>, firstInserted: int)
    requires Split(stored, batch, inserted, firstInserted) && batch != []
    ensures firstInserted < |batch| && inserted == batch[if firstInserted < 0 then |batch| else firstInserted..]
    ensures (firstInserted < 0 <==> batch[|batch| - 1] in stored) && (inserted == [] <==> firstInserted < 0)
  {}

  /** Every header of the batch makes it heavier. */
  lemma {:induction false} BatchWeights(t: Tree, batch: seq<Hash>, i: nat, j: nat)
    requires WellFormed(t) && Positive(t) && Contiguous(t, batch) && i <= j < |batch|
    ensures i < j ==> Weight(t, batch[i]) < Weight(t, batch[j])
    decreases j
  {
    if i < j {
      BatchWeights(t, batch, i, j - 1);
      assert t[batch[j]].parent == batch[j - 1];
    }
  }

  /** Whichever of the two the head becomes, no stored header is ahead of it. */
  lemma HeadStaysAhead(t: Tree, stored: set<Hash>, head: Hash, batch: seq<Hash>)
    requires WellFormed(t) && Positive(t) && Contiguous(t, batch) && batch != [] && NoneAhead(t, stored, head)
    ensures var last := batch[|batch| - 1];
      && last in t && (!Ahead(t, last, head) ==> NoneAhead(t, stored + Members(batch), head))
      && (Ahead(t, last, head) || Tied(t, last, head) ==> NoneAhead(t, stored + Members(batch), last) && !Ahead(t, head, last))
  {
    hide Weight, WellFormed, Positive, Contiguous;
    var last := batch[|batch| - 1];
    Lighter(t, batch);
    assert forall h :: h in Members(batch) ==> h in t && (h == last || Weight(t, h) < Weight(t, last));
    hide Members;
  }

  lemma Lighter(t: Tree, batch: seq<Hash>)
    requires WellFormed(t) && Positive(t) && Contiguous(t, batch) && batch != []
    ensures forall h :: h in batch ==> h in t && (h == batch[|batch| - 1] || Weight(t, h) < Weight(t, batch[|batch| - 1]))
  {
    hide Weight, WellFormed, Positive;
    forall h | h in batch ensures h in t && (h == batch[|batch| - 1] || Weight(t, h) < Weight(t, batch[|batch| - 1])) {
      var i :| 0 <= i < |batch| && batch[i] == h;
      BatchWeights(t, batch, i, |batch| - 1);
    }
  }

  /** The head moves either to a new header, or to a stored one that is level with it; and a
      batch on top of the head is all new. */
  lemma ReorgCases(t: Tree, stored: set<Hash>, head: Hash, batch: seq<Hash>, inserted: seq<Hash>, firstInserted: int)
    requires WellFormed(t) && Positive(t) && Contiguous(t, batch) && batch != [] && NoneAhead(t, stored, head)
    requires Split(stored, batch, inserted, firstInserted)
    requires t[batch[0]].parent in stored && t[batch[0]].number > 0
    requires Ahead(t, batch[|batch| - 1], head) || Tied(t, batch[|batch| - 1], head)
    ensures firstInserted < 0 ==> Tied(t, batch[|batch| - 1], head)
    ensures t[batch[0]].parent == head ==> firstInserted == 0 && inserted == batch
  {
    if t[batch[0]].parent == head {
      assert Weight(t, batch[0]) > Weight(t, head);
    }
  }

  /** The batch is the top of its last header's path. */
  lemma {:induction false} BatchPath(t: Tree, batch: seq<Hash>, j: nat)
    requires WellFormed(t) && Contiguous(t, batch) && j < |batch| && t[batch[0]].number > 0
    ensures forall i :: 0 <= i <= j ==> t[batch[i]].number == t[batch[0]].number + i
    ensures forall i :: 0 <= i <= j ==> Ancestor(t, batch[j], t[batch[i]].number) == batch[i]
    ensures forall n: nat :: n < t[batch[0]].number ==> Ancestor(t, batch[j], n) == Ancestor(t, t[batch[0]].parent, n)
  {
    hide WellFormed, Ancestor;
    forall i | 0 <= i <= j ensures t[batch[i]].number == t[batch[0]].number + i { NumberOf(t, batch, i); }
    AncestorSelf(t, batch[j]);
    if j == 0 {
      ParentIn(t, batch[0]);
      forall n: nat | n < t[batch[0]].number ensures Ancestor(t, batch[0], n) == Ancestor(t, t[batch[0]].parent, n) {
        AncestorBelow(t, batch[0], n);
      }
      return;
    }
    BatchPath(t, batch, j - 1);
    ParentBefore(t, batch, j);
    forall n: nat | n < t[batch[j]].number ensures Ancestor(t, batch[j], n) == Ancestor(t, batch[j - 1], n) {
      AncestorBelow(t, batch[j], n);
    }
  }

  lemma ParentBefore(t: Tree, batch: seq<Hash>, j: nat)
    requires Contiguous(t, batch) && 0 < j < |batch|
    ensures t[batch[j]].parent == batch[j - 1]
  {}

  lemma GenesisShared(t: Tree, a: Hash, b: Hash)
    requires WellFormed(t) && a in t && b in t
    ensures Ancestor(t, a, 0) == Ancestor(t, b, 0)
  {}

  lemma PiledUp(t: Tree, canon: Index, head: Hash, batch: seq<Hash>)
    requires WellFormed(t) && Seated(t, canon, head) && Contiguous(t, batch) && batch != []
    requires t[batch[0]].parent == head && t[batch[0]].number > 0
    ensures Reindexed(t, canon, Extend(t, canon, batch), head, batch, false)
  {
    InTree(t, batch);
    ParentIn(t, batch[0]);
    NumberOf(t, batch, |batch| - 1);
    hide Extend, Ancestor, WellFormed, Meet, Contiguous;
    var r, first := Extend(t, canon, batch), t[batch[0]].number;
    forall k: nat ensures (k in r <==> k <= t[batch[|batch| - 1]].number) && (k in r ==> r[k] == NewEntry(t, canon, head, batch, false, k)) {
      ExtendAt(t, canon, batch, k);
    }
  }

  lemma ExtendAt(t: Tree, canon: Index, batch: seq<Hash>, k: nat)
    requires Contiguous(t, batch) && batch != []
    ensures var r, first := Extend(t, canon, batch), t[batch[0]].number;
      && (k in r <==> k in canon || first <= k < first + |batch|)
      && (k in r ==> r[k] == if first <= k < first + |batch| then batch[k - first] else canon[k])
  {
    hide Extend;
    assert batch[0] in t;
    ExtendRun(t, canon, batch, batch, 0);
    hide Contiguous;
    var first := t[batch[0]].number;
    if first <= k < first + |batch| { NumberOf(t, batch, k - first); }
  }

  lemma Rewritten(t: Tree, canon: Index, trimmed: Index, patched: Index, marks: Index, head: Hash, batch: seq<Hash>, known: bool)
    requires WellFormed(t) && Seated(t, canon, head) && Contiguous(t, batch) && batch != []
    requires t[batch[0]].number > 0 && t[batch[0]].parent in t && t[batch[0]].parent != head
    requires known ==> t[batch[|batch| - 1]].number == t[head].number
    requires trimmed == map n | n in canon && n <= t[batch[|batch| - 1]].number :: canon[n]
    requires var h := t[batch[0]].parent;
      forall n: nat :: if Meet(t, canon, h, t[h].number) < n <= t[h].number
        then n in patched && patched[n] == Ancestor(t, h, n)
        else (n in patched <==> n in trimmed) && (n in trimmed ==> patched[n] == trimmed[n])
    requires !known ==> forall i :: 0 <= i < |batch| ==> t[batch[i]].number in marks && marks[t[batch[i]].number] == batch[i]
    requires known ==> marks == patched
    requires forall n: nat :: n < t[batch[0]].number || n >= t[batch[0]].number + |batch| ==>
      (n in marks <==> n in patched) && (n in patched ==> marks[n] == patched[n])
    ensures Reindexed(t, canon, marks, head, batch, known)
  {
    hide Ancestor, WellFormed, Meet;
    var h, first := t[batch[0]].parent, t[batch[0]].number;
    ParentIn(t, batch[0]);
    NumberOf(t, batch, |batch| - 1);
    MeetIsSeated(t, canon, head, h);
    var m := Meet(t, canon, h, t[h].number);
    forall k: nat ensures (k in marks <==> k <= first + |batch| - 1) && (k in marks ==> marks[k] == NewEntry(t, canon, head, batch, known, k)) {
      if first <= k < first + |batch| { NumberOf(t, batch, k - first); }
    }
  }

  /** The meeting point lies on the index. */
  lemma MeetIsSeated(t: Tree, canon: Index, head: Hash, h: Hash)
    requires WellFormed(t) && Seated(t, canon, head) && h in t
    ensures Meet(t, canon, h, t[h].number) <= t[head].number
  {
    var m := Meet(t, canon, h, t[h].number);
    if m > 0 { assert Ancestor(t, h, m) in t; }
  }

  // ----- runs -----

  /** Whatever index a state starts with, an import keeps ancestors, weights and seat in
      place, leaves no stored header ahead of the head, and never moves the head back. */
  lemma ImportKeeps(t: Tree, s: HeaderState, r: HeaderState, batch: seq<Hash>, coin: bool)
    requires WellFormed(t) && Positive(t) && Good(t, s) && Imports(t, s, r, batch, coin)
    ensures Good(t, r) && r.head in t && !Ahead(t, s.head, r.head)
  {
    hide WellFormed, Weight, Weighed, Positive, NoneAhead, Ancestor, Reindexed, Seated, Members, Numbered;
    GoodMeans(t, s);
    StoredMore(t, s.stored, batch);
    HeadStaysAhead(t, s.stored, s.head, batch);
    var last := batch[|batch| - 1];
    if Wins(t, last, s.head, coin) {
      SeatKept(t, s.canon, r.canon, s.head, batch, last in s.stored);
      NumbersKept(t, s, r.canon, batch);
    } else {
      AheadOfItself(t, s.head);
      NumberedMore(t, s.stored, Members(batch), s.canon);
    }
  }

  lemma NumberedMore(t: Tree, stored: set<Hash>, more: set<Hash>, canon: Index)
    requires Numbered(t, stored, canon)
    ensures Numbered(t, stored + more, canon)
  {}

  lemma NumbersKept(t: Tree, s: HeaderState, canon: Index, batch: seq<Hash>)
    requires WellFormed(t) && Good(t, s) && Contiguous(t, batch) && batch != [] && s.head in t
    requires t[batch[0]].parent in s.stored && t[batch[0]].parent in t && t[batch[0]].number > 0
    requires batch[|batch| - 1] in s.stored ==> t[batch[|batch| - 1]].number == t[s.head].number
    requires Reindexed(t, s.canon, canon, s.head, batch, batch[|batch| - 1] in s.stored)
    ensures Numbered(t, s.stored + Members(batch), canon)
  {
    hide WellFormed, Good, NewEntry, Members;
    forall k | k in canon ensures canon[k] in s.stored + Members(batch) && canon[k] in t && t[canon[k]].number == k {
      EntryNumbered(t, s, batch, batch[|batch| - 1] in s.stored, k);
    }
  }

  lemma EntryNumbered(t: Tree, s: HeaderState, batch: seq<Hash>, known: bool, k: nat)
    requires WellFormed(t) && Good(t, s) && Contiguous(t, batch) && batch != [] && s.head in t
    requires t[batch[0]].parent in s.stored && t[batch[0]].parent in t && t[batch[0]].number > 0 && k <= t[batch[|batch| - 1]].number
    requires known ==> t[batch[|batch| - 1]].number == t[s.head].number
    ensures var e := NewEntry(t, s.canon, s.head, batch, known, k);
      e in s.stored + Members(batch) && e in t && t[e].number == k
  {
    GoodMeans(t, s);
    EntryKept(t, s.canon, s.head, batch, known, k);
    InTree(t, batch);
    if t[batch[0]].number <= k { NumberOf(t, batch, |batch| - 1); }
    hide WellFormed, Good, Contiguous, Seated, Rooted, Weighed, NoneAhead, Numbered, Members;
    EntryFrom(t, s.canon, s.head, batch, known, k);
    var e, parent := NewEntry(t, s.canon, s.head, batch, known, k), t[batch[0]].parent;
    hide NewEntry;
    if FromBatch(t, batch, k, e) {
      BatchNumbered(t, batch, k, e);
    } else if k <= t[parent].number && e == Ancestor(t, parent, k) {
      AncestorStored(t, s.stored, parent, k);
    } else {
      OnIndexKnown(t, s.stored, s.canon, e, k);
    }
  }

  ghost predicate FromBatch(t: Tree, batch: seq<Hash>, k: nat, e: Hash)
    requires Contiguous(t, batch) && batch != []
  {
    t[batch[0]].number <= k < t[batch[0]].number + |batch| && e == batch[k - t[batch[0]].number]
  }

  /** Where a new entry comes from. */
  lemma EntryFrom(t: Tree, was: Index, head: Hash, batch: seq<Hash>, known: bool, k: nat)
    requires WellFormed(t) && Contiguous(t, batch) && batch != [] && t[batch[0]].parent in t && t[batch[0]].number > 0
    ensures var e, parent := NewEntry(t, was, head, batch, known, k), t[batch[0]].parent;
      FromBatch(t, batch, k, e) || (k <= t[parent].number && e == Ancestor(t, parent, k)) || e == Lookup(was, k)
  {
    hide WellFormed, Contiguous, Ancestor, Meet;
  }

  lemma BatchNumbered(t: Tree, batch: seq<Hash>, k: nat, e: Hash)
    requires Contiguous(t, batch) && batch != [] && FromBatch(t, batch, k, e)
    ensures e in Members(batch) && e in t && t[e].number == k
  {
    NumberOf(t, batch, k - t[batch[0]].number);
  }

  lemma FreshChain(t: Tree, genesis: Hash)
    requires WellFormed(t) && genesis in t && t[genesis].number == 0
    ensures Good(t, HeaderState({genesis}, map[genesis := t[genesis].difficulty], map[0 := genesis], genesis))
    ensures Canonical(t, map[0 := genesis], genesis)
  {
    assert genesis != ZERO;
    hide Weight, Ancestor, WellFormed;
    WeightRoot(t, genesis);
    AncestorSelf(t, genesis);
    assert Rooted(t, {genesis}) && NoneAhead(t, {genesis}, genesis);
    assert Weighed(t, {genesis}, map[genesis := t[genesis].difficulty]);
    assert Seated(t, map[0 := genesis], genesis);
  }

  lemma StoredMore(t: Tree, stored: set<Hash>, batch: seq<Hash>)
    requires WellFormed(t) && Rooted(t, stored) && Contiguous(t, batch) && batch != [] && t[batch[0]].parent in stored
    ensures Rooted(t, stored + Members(batch)) && batch[|batch| - 1] in stored + Members(batch)
  {
    forall h | h in Members(batch) ensures h in t && (t[h].number > 0 ==> t[h].parent in stored + Members(batch)) {
      var i :| 0 <= i < |batch| && batch[i] == h;
      if i > 0 { assert t[h].parent == batch[i - 1]; }
    }
  }

  lemma SeatKept(t: Tree, was: Index, canon: Index, head: Hash, batch: seq<Hash>, known: bool)
    requires WellFormed(t) && Contiguous(t, batch) && batch != [] && t[batch[0]].parent in t && t[batch[0]].number > 0
    requires Seated(t, was, head) && Reindexed(t, was, canon, head, batch, known)
    requires known ==> t[batch[|batch| - 1]].number == t[head].number
    ensures Seated(t, canon, batch[|batch| - 1])
  {
    InTree(t, batch);
    var last := batch[|batch| - 1];
    forall k: nat | k <= t[last].number ensures NewEntry(t, was, head, batch, known, k) != ZERO {
      EntryKept(t, was, head, batch, known, k);
    }
    EntryKept(t, was, head, batch, known, 0);
    hide Ancestor, Meet, Weight, Contiguous, NewEntry, WellFormed;
    GenesisShared(t, head, last);
  }

  /** No new entry is empty, and the one of the genesis stays. */
  lemma EntryKept(t: Tree, was: Index, head: Hash, batch: seq<Hash>, known: bool, k: nat)
    requires WellFormed(t) && Contiguous(t, batch) && batch != [] && t[batch[0]].parent in t && t[batch[0]].number > 0
    requires Seated(t, was, head) && k <= t[batch[|batch| - 1]].number
    requires known ==> t[batch[|batch| - 1]].number == t[head].number
    ensures NewEntry(t, was, head, batch, known, k) != ZERO
    ensures k == 0 ==> NewEntry(t, was, head, batch, known, k) == was[0]
  {
    InTree(t, batch);
    ParentIn(t, batch[0]);
    NumberOf(t, batch, |batch| - 1);
    MeetIsSeated(t, was, head, t[batch[0]].parent);
    hide Ancestor, Meet, Weight, Contiguous, WellFormed;
  }

  lemma InTree(t: Tree, batch: seq<Hash>)
    requires WellFormed(t) && Contiguous(t, batch)
    ensures forall i :: 0 <= i < |batch| ==> batch[i] in t
    ensures forall h :: h in t ==> h != ZERO
  {}

  /** Below the first number at which the index meets h's path, it stays on it. */
  ghost predicate Stitches(t: Tree, canon: Index, h: Hash)
    requires WellFormed(t) && h in t
  {
    forall k: nat :: k <= Meet(t, canon, h, t[h].number) ==> Lookup(canon, k) == Ancestor(t, h, k)
  }

  /** Every header of the batch is on the index already. */
  ghost predicate Listed(t: Tree, canon: Index, batch: seq<Hash>)
    requires Contiguous(t, batch)
  {
    forall i :: 0 <= i < |batch| ==> Lookup(canon, t[batch[i]].number) == batch[i]
  }

  /** When the head moves, the index becomes canonical exactly if the old one was (for a batch
      on the head), or if the old one stitches to the new parent's path and the batch brings a
      new header or is listed already. */
  lemma CanonicalAfterMove(t: Tree, was: Index, canon: Index, head: Hash, batch: seq<Hash>, known: bool)
    requires WellFormed(t) && Contiguous(t, batch) && batch != [] && t[batch[0]].parent in t && t[batch[0]].number > 0
    requires Seated(t, was, head) && Reindexed(t, was, canon, head, batch, known)
    requires t[batch[0]].parent == head ==> !known
    ensures Canonical(t, canon, batch[|batch| - 1]) <==>
      if t[batch[0]].parent == head then Canonical(t, was, head)
      else Stitches(t, was, t[batch[0]].parent) && (!known || Listed(t, was, batch))
  {
    hide Ancestor, WellFormed, Meet, Seated, Holeless;
    var last, parent, first := batch[|batch| - 1], t[batch[0]].parent, t[batch[0]].number;
    ParentIn(t, batch[0]);
    BatchPath(t, batch, |batch| - 1);
    NumberOf(t, batch, |batch| - 1);
    assert Canonical(t, canon, last) <==> forall k: nat :: k <= t[last].number ==> NewEntry(t, was, head, batch, known, k) == Ancestor(t, last, k);
    EntriesOfBatch(t, was, head, batch, known);
    EntriesBelow(t, was, head, batch, known);
    if parent == head { SeatedCanonical(t, was, head); }
  }

  lemma EntriesOfBatch(t: Tree, was: Index, head: Hash, batch: seq<Hash>, known: bool)
    requires WellFormed(t) && Contiguous(t, batch) && batch != [] && t[batch[0]].parent in t && 0 < t[batch[0]].number <= t[batch[|batch| - 1]].number
    ensures (forall k: nat :: t[batch[0]].number <= k <= t[batch[|batch| - 1]].number ==>
        NewEntry(t, was, head, batch, known, k) == Ancestor(t, batch[|batch| - 1], k)) <==> !known || Listed(t, was, batch)
  {
    hide Ancestor, WellFormed, Meet;
    var last, first := batch[|batch| - 1], t[batch[0]].number;
    BatchPath(t, batch, |batch| - 1);
    if forall k: nat :: first <= k <= t[last].number ==> NewEntry(t, was, head, batch, known, k) == Ancestor(t, last, k) {
      forall i | 0 <= i < |batch| ensures known ==> Lookup(was, t[batch[i]].number) == batch[i] {
        assert NewEntry(t, was, head, batch, known, first + i) == Ancestor(t, last, first + i);
      }
    } else {
      var k: nat :| first <= k <= t[last].number && NewEntry(t, was, head, batch, known, k) != Ancestor(t, last, k);
      assert t[batch[k - first]].number == k;
    }
  }

  lemma EntriesBelow(t: Tree, was: Index, head: Hash, batch: seq<Hash>, known: bool)
    requires WellFormed(t) && Contiguous(t, batch) && batch != [] && t[batch[0]].parent in t && 0 < t[batch[0]].number <= t[batch[|batch| - 1]].number
    ensures (forall k: nat :: k < t[batch[0]].number ==>
        NewEntry(t, was, head, batch, known, k) == Ancestor(t, batch[|batch| - 1], k)) <==>
      if t[batch[0]].parent == head then forall k: nat :: k <= t[t[batch[0]].parent].number ==> Lookup(was, k) == Ancestor(t, t[batch[0]].parent, k)
      else Stitches(t, was, t[batch[0]].parent)
  {
    hide Ancestor, WellFormed, Meet;
    var last, parent, first := batch[|batch| - 1], t[batch[0]].parent, t[batch[0]].number;
    ParentIn(t, batch[0]);
    BatchPath(t, batch, |batch| - 1);
    forall k: nat | k < first ensures NewEntry(t, was, head, batch, known, k) == Ancestor(t, last, k) <==>
      Lookup(was, k) == Ancestor(t, parent, k) || (parent != head && k > Meet(t, was, parent, t[parent].number)) {}
    if forall k: nat :: k < first ==> NewEntry(t, was, head, batch, known, k) == Ancestor(t, last, k) {
      forall k: nat | k <= t[parent].number && (parent == head || k <= Meet(t, was, parent, t[parent].number))
        ensures Lookup(was, k) == Ancestor(t, parent, k)
      {
        assert NewEntry(t, was, head, batch, known, k) == Ancestor(t, last, k);
      }
    }
  }

  lemma SeatedCanonical(t: Tree, canon: Index, head: Hash)
    requires WellFormed(t) && Seated(t, canon, head)
    ensures Canonical(t, canon, head) <==> forall k: nat :: k <= t[head].number ==> Lookup(canon, k) == Ancestor(t, head, k)
  {
    hide Ancestor;
    if forall k: nat :: k <= t[head].number ==> Lookup(canon, k) == Ancestor(t, head, k) {
      forall n: nat ensures if n <= t[head].number then n in canon && canon[n] == Ancestor(t, head, n) else n !in canon {
        assert n <= t[head].number ==> Lookup(canon, n) == Ancestor(t, head, n);
      }
    }
  }

  /** On a canonical index only one import goes wrong: a stored header other than the head
      that is tied with it and wins the coin. */
  lemma CanonicalKept(t: Tree, s: HeaderState, r: HeaderState, batch: seq<Hash>, coin: bool)
    requires WellFormed(t) && Positive(t) && Good(t, s) && Imports(t, s, r, batch, coin) && Canonical(t, s.canon, s.head)
    ensures r.head in t && (Canonical(t, r.canon, r.head) <==> !StoredTie(t, s, batch, coin))
  {
    hide WellFormed, Weight, Weighed, Positive, NoneAhead, Ancestor, Reindexed, Seated, Canonical, Stitches, Rooted;
    var last := batch[|batch| - 1];
    GoodMeans(t, s);
    HeadStaysAhead(t, s.stored, s.head, batch);
    if Wins(t, last, s.head, coin) {
      StoredIsTied(t, s, batch);
      CanonicalAfterMove(t, s.canon, r.canon, s.head, batch, last in s.stored);
      CanonicalStitches(t, s.canon, s.head, t[batch[0]].parent);
      if last in s.stored { TiedListed(t, s.canon, s.head, batch); }
    }
  }

  ghost predicate StoredTie(t: Tree, s: HeaderState, batch: seq<Hash>, coin: bool)
    requires WellFormed(t) && Contiguous(t, batch) && batch != [] && s.head in t
  {
    var last := batch[|batch| - 1];
    last in s.stored && last != s.head && Tied(t, last, s.head) && coin
  }

  lemma StoredIsTied(t: Tree, s: HeaderState, batch: seq<Hash>)
    requires WellFormed(t) && Positive(t) && s.head in t && NoneAhead(t, s.stored, s.head) && Rooted(t, s.stored)
    requires Contiguous(t, batch) && batch != [] && t[batch[0]].parent in t && t[batch[0]].number > 0
    ensures var last := batch[|batch| - 1];
      && (last in s.stored ==> !Ahead(t, last, s.head))
      && (t[batch[0]].parent == s.head ==> last !in s.stored)
  {
    if t[batch[0]].parent == s.head {
      BatchWeights(t, batch, 0, |batch| - 1);
      WeightNext(t, batch[0]);
    }
  }

  lemma CanonicalStitches(t: Tree, canon: Index, head: Hash, h: Hash)
    requires WellFormed(t) && Canonical(t, canon, head) && h in t
    ensures Stitches(t, canon, h)
  {
    var m := Meet(t, canon, h, t[h].number);
    if m == 0 {
      GenesisIsCanonical(t, canon, head, h);
    } else {
      MeetsCanonical(t, canon, head, h, m);
    }
    hide Ancestor, Canonical;
    assert forall k: nat :: k <= m && k in canon ==> Lookup(canon, k) == canon[k];
  }

  lemma TiedListed(t: Tree, canon: Index, head: Hash, batch: seq<Hash>)
    requires WellFormed(t) && Canonical(t, canon, head) && Contiguous(t, batch) && batch != [] && t[batch[0]].number > 0
    requires t[batch[|batch| - 1]].number == t[head].number
    ensures Listed(t, canon, batch) <==> batch[|batch| - 1] == head
  {
    var last := batch[|batch| - 1];
    BatchPath(t, batch, |batch| - 1);
    AncestorSelf(t, head);
    hide Ancestor;
    assert Lookup(canon, t[last].number) == head;
  }

  ghost predicate IsRun(t: Tree, states: seq<HeaderState>, batches: seq<seq<Hash>>, coins: seq<bool>)
    requires WellFormed(t)
  {
    |states| == |batches| + 1 && |coins| == |batches| && forall i :: 0 <= i < |batches| ==> ImportsAt(t, states, batches, coins, i)
  }

  ghost predicate ImportsAt(t: Tree, states: seq<HeaderState>, batches: seq<seq<Hash>>, coins: seq<bool>, i: nat)
    requires WellFormed(t) && i < |batches| && i < |coins| && i + 1 < |states|
  {
    Imports(t, states[i], states[i + 1], batches[i], coins[i])
  }

  ghost predicate StoredTieAt(t: Tree, states: seq<HeaderState>, batches: seq<seq<Hash>>, coins: seq<bool>, i: nat)
    requires WellFormed(t) && i < |batches| && i < |coins| && i + 1 < |states| && ImportsAt(t, states, batches, coins, i)
  {
    StoredTie(t, states[i], batches[i], coins[i])
  }

  /** All but the first import of a run. */
  lemma RunTail(t: Tree, states: seq<HeaderState>, batches: seq<seq<Hash>>, coins: seq<bool>)
    requires WellFormed(t) && IsRun(t, states, batches, coins) && batches != []
    ensures Imports(t, states[0], states[1], batches[0], coins[0])
    ensures IsRun(t, states[1..], batches[1..], coins[1..])
  {
    hide Imports, WellFormed;
    assert ImportsAt(t, states, batches, coins, 0);
    forall i | 0 <= i < |batches[1..]| ensures ImportsAt(t, states[1..], batches[1..], coins[1..], i) {
      assert ImportsAt(t, states, batches, coins, i + 1);
    }
  }

  lemma NotAheadTrans(t: Tree, a: Hash, b: Hash, c: Hash)
    requires WellFormed(t) && a in t && b in t && c in t && !Ahead(t, a, b) && !Ahead(t, b, c)
    ensures !Ahead(t, a, c)
  {
    hide Weight, WellFormed;
  }

  /** Over every run of imports, whatever has become of the index: no stored header is ahead
      of the head, and the head is never behind an earlier one. */
  lemma {:induction false} EveryRunAdvances(t: Tree, states: seq<HeaderState>, batches: seq<seq<Hash>>, coins: seq<bool>)
    requires WellFormed(t) && Positive(t) && IsRun(t, states, batches, coins) && Good(t, states[0])
    ensures Good(t, states[|batches|]) && states[0].head in t && states[|batches|].head in t
    ensures !Ahead(t, states[0].head, states[|batches|].head)
    decreases |batches|
  {
    hide WellFormed, Positive, Good, Imports, Weight, Ahead;
    GoodMeans(t, states[0]);
    if batches == [] {
      AheadOfItself(t, states[0].head);
    } else {
      RunTail(t, states, batches, coins);
      hide IsRun;
      ImportKeeps(t, states[0], states[1], batches[0], coins[0]);
      EveryRunAdvances(t, states[1..], batches[1..], coins[1..]);
      NotAheadTrans(t, states[0].head, states[1].head, states[|batches|].head);
    }
  }

  /** Over every run without a stored tie that wins the coin, the index stays the head's
      ancestor path with nothing above it. */
  lemma {:induction false} EveryRunCanonical(t: Tree, states: seq<HeaderState>, batches: seq<seq<Hash>>, coins: seq<bool>)
    requires WellFormed(t) && Positive(t) && IsRun(t, states, batches, coins) && Good(t, states[0])
    requires Canonical(t, states[0].canon, states[0].head)
    requires forall i :: 0 <= i < |batches| ==> ImportsAt(t, states, batches, coins, i) && !StoredTieAt(t, states, batches, coins, i)
    ensures Canonical(t, states[|batches|].canon, states[|batches|].head)
    decreases |batches|
  {
    hide WellFormed, Positive, Good, Imports, StoredTie, Canonical;
    if batches != [] {
      assert ImportsAt(t, states, batches, coins, 0) && !StoredTieAt(t, states, batches, coins, 0);
      ImportKeeps(t, states[0], states[1], batches[0], coins[0]);
      CanonicalKept(t, states[0], states[1], batches[0], coins[0]);
      forall i | 0 <= i < |batches[1..]| ensures ImportsAt(t, states[1..], batches[1..], coins[1..], i) && !StoredTieAt(t, states[1..], batches[1..], coins[1..], i) {
        assert ImportsAt(t, states, batches, coins, i + 1) && !StoredTieAt(t, states, batches, coins, i + 1);
      }
      EveryRunCanonical(t, states[1..], batches[1..], coins[1..]);
    }
  }

  /** The header before the i-th of the batch. */
  function Before(t: Tree, batch: seq<Hash>, i: nat): Hash
    requires Contiguous(t, batch) && i <= |batch| && batch != []
  {
    if i == 0 then t[batch[0]].parent else batch[i - 1]
  }

  lemma StoreNone(t: Tree, stored: set<Hash>, td: map<Hash, nat>, batch: seq<Hash>)
    requires WellFormed(t) && Rooted(t, stored) && Weighed(t, stored, td) && Contiguous(t, batch) && batch != []
    requires t[batch[0]].parent in stored
    ensures t[batch[0]].number > 0 && t[batch[0]].parent in t && t[batch[0]].parent in td && td[t[batch[0]].parent] == Weight(t, t[batch[0]].parent)
    ensures Split(stored, batch[..0], [], -1) && stored == stored + Members(batch[..0])
    ensures Before(t, batch, 0) == t[batch[0]].parent
  {}

  /** Storing the next header, or finding it stored. */
  lemma StoreStep(t: Tree, stored: set<Hash>, td: map<Hash, nat>, batch: seq<Hash>, i: nat, newTD: nat)
    requires WellFormed(t) && Rooted(t, stored) && Weighed(t, stored, td) && Contiguous(t, batch) && i < |batch|
    requires Before(t, batch, i) in stored && Before(t, batch, i) in t && newTD == Weight(t, Before(t, batch, i)) + t[batch[i]].difficulty
    requires t[batch[0]].number > 0
    ensures newTD == Weight(t, batch[i])
    ensures Rooted(t, stored + {batch[i]}) && Weighed(t, stored + {batch[i]}, td[batch[i] := newTD])
    ensures Members(batch[..i + 1]) == Members(batch[..i]) + {batch[i]}
    ensures batch[i] in stored ==> stored + {batch[i]} == stored
    ensures Before(t, batch, i + 1) == batch[i]
  {
    hide WellFormed, Weight, Rooted, Weighed;
    NumberOf(t, batch, i);
    MembersSnoc(batch, i);
    assert t[batch[i]].parent == Before(t, batch, i);
    WeightNext(t, batch[i]);
    StoreOne(t, stored, td, batch[i], newTD);
  }

  lemma StoreOne(t: Tree, stored: set<Hash>, td: map<Hash, nat>, h: Hash, newTD: nat)
    requires WellFormed(t) && Rooted(t, stored) && Weighed(t, stored, td) && h in t && t[h].parent in stored
    requires newTD == Weight(t, h)
    ensures Rooted(t, stored + {h}) && Weighed(t, stored + {h}, td[h := newTD])
  {
    hide WellFormed, Weight;
  }

  lemma NotYet(t: Tree, stored: set<Hash>, batch: seq<Hash>, i: nat)
    requires Contiguous(t, batch) && i < |batch|
    ensures batch[i] !in Members(batch[..i])
  {
    forall j | 0 <= j < i ensures batch[j] != batch[i] {
      NumberOf(t, batch, i);
      NumberOf(t, batch, j);
    }
  }

  lemma {:induction false} ExtendRun(t: Tree, canon: Index, batch: seq<Hash>, run: seq<Hash>, j: nat)
    requires Contiguous(t, batch) && batch != [] && j + |run| <= |batch| && run == batch[j..j + |run|]
    ensures var r := Extend(t, canon, run);
      && (forall i :: j <= i < j + |run| ==> t[batch[i]].number in r && r[t[batch[i]].number] == batch[i])
      && (forall n: nat :: n in r <==> n in canon || t[batch[0]].number + j <= n < t[batch[0]].number + j + |run|)
      && (forall n: nat :: n in canon && !(t[batch[0]].number + j <= n < t[batch[0]].number + j + |run|) ==> r[n] == canon[n])
    decreases |run|
  {
    if run != [] {
      var k := |run| - 1;
      ExtendRun(t, canon, batch, run[..k], j);
      NumberOf(t, batch, j + k);
      forall i | j <= i < j + k ensures t[batch[i]].number == t[batch[0]].number + i { NumberOf(t, batch, i); }
    }
  }

  lemma ExtendRuns(t: Tree, canon: Index, batch: seq<Hash>, k: nat, rest: seq<Hash>)
    requires Contiguous(t, batch) && batch != [] && k <= |batch| && (rest == batch[k..] || (k == 0 && rest == []))
    ensures var r := Extend(t, Extend(t, canon, batch[..k]), rest);
      && (rest != [] ==> forall i :: 0 <= i < |batch| ==> t[batch[i]].number in r && r[t[batch[i]].number] == batch[i])
      && (rest == [] && k == 0 ==> r == canon)
      && (forall n: nat :: n < t[batch[0]].number || n >= t[batch[0]].number + |batch| ==> (n in r <==> n in canon) && (n in canon ==> r[n] == canon[n]))
  {
    ExtendRun(t, canon, batch, batch[..k], 0);
    assert rest == batch[k..k + |rest|];
    ExtendRun(t, Extend(t, canon, batch[..k]), batch, rest, k);
    forall i | 0 <= i < |batch| ensures t[batch[i]].number == t[batch[0]].number + i { NumberOf(t, batch, i); }
  }

  /** An import that leaves a canonical index listing another header than the new head. */
  ghost predicate SpoilsIndex(t: Tree, s: HeaderState, r: HeaderState, batch: seq<Hash>, coin: bool) {
    && WellFormed(t) && Positive(t) && Good(t, s) && Imports(t, s, r, batch, coin)
    && Canonical(t, s.canon, s.head) && !Canonical(t, r.canon, r.head) && r.canon == s.canon && r.head != s.head
  }

  /** The failing import exists: two level headers on the genesis, both stored, and the one
      that is not the head imported again. */
  lemma StoredTieExists()
    ensures exists t, s, r, batch :: SpoilsIndex(t, s, r, batch, true)
  {
    var t, s := ThreeExist();
    var r := s.(head := 3);
    TieIsGood(t, s);
    TieImports(t, s, r);
    hide Weight, Good, Imports, Canonical, WellFormed, Positive;
    CanonicalKept(t, s, r, [3], true);
    assert SpoilsIndex(t, s, r, [3], true);
  }

  /** Three headers: a genesis 1 and two tied ones, 2 and 3, of which 2 is the head. */
  ghost predicate ThreeHeaders(t: Tree, s: HeaderState) {
    && t == map[1 := Block(ZERO, 0, 1, []), 2 := Block(1, 1, 1, []), 3 := Block(1, 1, 1, [])]
    && s == HeaderState({1, 2, 3}, map[1 := 1, 2 := 2, 3 := 2], map[0 := 1, 1 := 2], 2)
    && WellFormed(t) && Weight(t, 1) == 1 && Weight(t, 2) == 2 && Weight(t, 3) == 2
    && Ancestor(t, 2, 0) == 1 && Ancestor(t, 2, 1) == 2 && Ancestor(t, 3, 0) == 1
  }

  lemma ThreeExist() returns (t: Tree, s: HeaderState)
    ensures ThreeHeaders(t, s) && Positive(t)
  {
    t := map[1 := Block(ZERO, 0, 1, []), 2 := Block(1, 1, 1, []), 3 := Block(1, 1, 1, [])];
    s := HeaderState({1, 2, 3}, map[1 := 1, 2 := 2, 3 := 2], map[0 := 1, 1 := 2], 2);
    assert WellFormed(t) && Positive(t);
    hide WellFormed;
    WeightRoot(t, 1);
    WeightNext(t, 2);
    WeightNext(t, 3);
    AncestorSelf(t, 1);
    AncestorSelf(t, 2);
    AncestorBelow(t, 2, 0);
    AncestorBelow(t, 3, 0);
    hide Weight, Ancestor;
  }

  lemma TieIsGood(t: Tree, s: HeaderState)
    requires ThreeHeaders(t, s)
    ensures Good(t, s) && Canonical(t, s.canon, s.head)
  {
    hide Weight, Ancestor, WellFormed;
    assert Rooted(t, s.stored) && Weighed(t, s.stored, s.td);
    assert NoneAhead(t, s.stored, s.head);
    assert Seated(t, s.canon, s.head) && Numbered(t, s.stored, s.canon);
  }

  lemma TieImports(t: Tree, s: HeaderState, r: HeaderState)
    requires ThreeHeaders(t, s) && Good(t, s) && r == s.(head := 3)
    ensures Imports(t, s, r, [3], true) && StoredTie(t, s, [3], true)
  {
    hide Weight, Ancestor, WellFormed, Good;
    assert Weighed(t, s.stored, s.td);
    assert Contiguous(t, [3]) && Members([3]) == {3} && s.stored + {3} == s.stored;
    assert Wins(t, 3, 2, true);
    assert Meet(t, s.canon, 1, 0) == 0;
    assert Reindexed(t, s.canon, r.canon, 2, [3], true);
  }
}
