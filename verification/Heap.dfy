/** The binary heap the pool's indices are kept in: the sift-up / sift-down discipline
    behind the heap interface that nonceHeap and priceHeap implement. A heap is a slice,
    here a sequence; `less` is the index's own Less. */
module Heap {

  ghost predicate AsymAt<T>(less: (T, T) -> bool, a: T, b: T) {
    less(a, b) ==> !less(b, a)
  }

  ghost predicate TransAt<T>(less: (T, T) -> bool, a: T, b: T, c: T) {
    !less(b, a) && !less(c, b) ==> !less(c, a)
  }

  /** `less` is a strict weak order: its negation is a total preorder. */
  ghost predicate StrictWeak<T(!new)>(less: (T, T) -> bool) {
    && (forall a, b :: AsymAt(less, a, b))
    && (forall a, b, c :: TransAt(less, a, b, c))
  }

  ghost predicate EdgeOk<T>(h: seq<T>, less: (T, T) -> bool, c: int)
    requires 0 <= c < |h|
  {
    c > 0 ==> !less(h[c], h[(c - 1) / 2])
  }

  ghost predicate IsHeap<T>(h: seq<T>, less: (T, T) -> bool) {
    forall c :: 0 <= c < |h| ==> EdgeOk(h, less, c)
  }

  /** The head of a heap is a minimum. */
  lemma {:induction false} HeadIsMin<T(!new)>(h: seq<T>, less: (T, T) -> bool, i: nat)
    requires StrictWeak(less) && IsHeap(h, less) && i < |h|
    ensures !less(h[i], h[0])
  {
    if i > 0 {
      HeadIsMin(h, less, (i - 1) / 2);
      assert EdgeOk(h, less, i) && TransAt(less, h[0], h[(i - 1) / 2], h[i]);
    } else {
      assert AsymAt(less, h[0], h[0]);
    }
  }

  lemma HeadBelowAll<T(!new)>(h: seq<T>, less: (T, T) -> bool)
    requires StrictWeak(less) && IsHeap(h, less)
    ensures forall x :: x in h ==> !less(x, h[0])
  {
    forall x | x in h ensures !less(x, h[0]) {
      var i :| 0 <= i < |h| && h[i] == x;
      HeadIsMin(h, less, i);
    }
  }

  function Swap<T>(h: seq<T>, i: nat, j: nat): (r: seq<T>)
    requires i < |h| && j < |h|
    ensures multiset(r) == multiset(h)
  {
    h[i := h[j]][j := h[i]]
  }

  /** The heap property broken at most on the edge above j. */
  ghost predicate UpReady<T>(h: seq<T>, less: (T, T) -> bool, j: nat) {
    && j < |h|
    && (forall c :: 0 <= c < |h| && c != j ==> EdgeOk(h, less, c))
    && (forall c :: 0 < c < |h| && (c - 1) / 2 == j > 0 ==> !less(h[c], h[(j - 1) / 2]))
  }

  lemma UpStep<T(!new)>(h: seq<T>, less: (T, T) -> bool, j: nat)
    requires StrictWeak(less) && UpReady(h, less, j) && j > 0 && less(h[j], h[(j - 1) / 2])
    ensures UpReady(Swap(h, (j - 1) / 2, j), less, (j - 1) / 2)
  {
    var i := (j - 1) / 2;
    var r := Swap(h, i, j);
    assert AsymAt(less, h[j], h[i]);
    forall c | 0 <= c < |r| && c != i ensures EdgeOk(r, less, c) {
      assert c != j ==> EdgeOk(h, less, c);
      if c > 0 && (c - 1) / 2 == i && c != j {
        assert TransAt(less, h[j], h[i], h[c]);
      }
    }
    forall c | 0 < c < |r| && (c - 1) / 2 == i > 0 ensures !less(r[c], r[(i - 1) / 2]) {
      assert EdgeOk(h, less, i) && (c != j ==> EdgeOk(h, less, c));
      assert TransAt(less, h[(i - 1) / 2], h[i], h[c]);
    }
  }

  method Up<T(!new)>(h: seq<T>, less: (T, T) -> bool, j0: nat) returns (r: seq<T>)
    requires StrictWeak(less) && UpReady(h, less, j0)
    ensures IsHeap(r, less) && multiset(r) == multiset(h) && |r| == |h|
  {
    r := h;
    var j: nat := j0;
    while j > 0 && less(r[j], r[(j - 1) / 2])
      invariant |r| == |h| && multiset(r) == multiset(h) && UpReady(r, less, j)
    {
      var i := (j - 1) / 2;
      UpStep(r, less, j);
      r := Swap(r, i, j);
      j := i;
    }
  }

  /** Every edge below `lo` holds except those under i and the one above i0. */
  ghost predicate DownReady<T>(h: seq<T>, less: (T, T) -> bool, i: nat, i0: nat, lo: nat) {
    && (forall c :: 0 < c < |h| && lo <= (c - 1) / 2 != i && c != i0 ==> EdgeOk(h, less, c))
    && (forall c :: 0 < c < |h| && (c - 1) / 2 == i > 0 && lo <= (i - 1) / 2 ==> !less(h[c], h[(i - 1) / 2]))
  }

  /** Every edge below `lo` holds except the one above i0. */
  ghost predicate DownDone<T>(h: seq<T>, less: (T, T) -> bool, i0: nat, lo: nat) {
    forall c :: 0 < c < |h| && lo <= (c - 1) / 2 && c != i0 ==> EdgeOk(h, less, c)
  }

  lemma DownStep<T(!new)>(h: seq<T>, less: (T, T) -> bool, i: nat, j: nat, i0: nat, lo: nat)
    requires StrictWeak(less) && DownReady(h, less, i, i0, lo) && lo <= i0 <= i
    requires (j == 2 * i + 1 || j == 2 * i + 2) && j < |h| && less(h[j], h[i])
    requires forall c :: 0 < c < |h| && (c - 1) / 2 == i ==> !less(h[c], h[j])
    ensures DownReady(Swap(h, i, j), less, j, i0, lo)
    ensures i0 > 0 && lo <= (i0 - 1) / 2 && (i > i0 ==> EdgeOk(h, less, i0)) ==> EdgeOk(Swap(h, i, j), less, i0)
  {
    var r := Swap(h, i, j);
    assert AsymAt(less, h[j], h[i]);
    forall c | 0 < c < |r| && lo <= (c - 1) / 2 != j && c != i0 ensures EdgeOk(r, less, c) {
      if (c - 1) / 2 != i {
        assert EdgeOk(h, less, c);
      }
    }
    forall c | 0 < c < |r| && (c - 1) / 2 == j ensures !less(r[c], r[(j - 1) / 2]) {
      assert EdgeOk(h, less, c);
    }
  }

  method Down<T(!new)>(h: seq<T>, less: (T, T) -> bool, i0: nat, ghost lo: nat) returns (r: seq<T>, moved: bool)
    requires StrictWeak(less) && lo <= i0 && DownReady(h, less, i0, i0, lo)
    ensures |r| == |h| && multiset(r) == multiset(h) && DownDone(r, less, i0, lo)
    ensures if moved then 0 < i0 < |r| && lo <= (i0 - 1) / 2 ==> EdgeOk(r, less, i0) else r == h
  {
    hide DownReady, DownDone, StrictWeak, EdgeOk;
    r := h;
    var i := i0;
    while 2 * i + 1 < |r|
      invariant i0 <= i && |r| == |h| && multiset(r) == multiset(h) && (i == i0 ==> r == h)
      invariant DownReady(r, less, i, i0, lo)
      invariant i > i0 && 0 < i0 < |r| && lo <= (i0 - 1) / 2 ==> EdgeOk(r, less, i0)
      decreases |r| - i
    {
      var j := 2 * i + 1;
      if j + 1 < |r| && less(r[j + 1], r[j]) {
        j := j + 1;
      }
      LesserChild(r, less, i, j);
      if !less(r[j], r[i]) {
        DownStops(r, less, i, j, i0, lo);
        break;
      }
      DownStep(r, less, i, j, i0, lo);
      r := Swap(r, i, j);
      i := j;
    }
    if 2 * i + 1 >= |r| { DownLeaf(r, less, i, i0, lo); }
    moved := i > i0;
  }

  /** The child that Down compares with is the lesser one. */
  lemma LesserChild<T(!new)>(h: seq<T>, less: (T, T) -> bool, i: nat, j: nat)
    requires StrictWeak(less) && 2 * i + 1 < |h|
    requires j == if 2 * i + 2 < |h| && less(h[2 * i + 2], h[2 * i + 1]) then 2 * i + 2 else 2 * i + 1
    ensures forall c :: 0 < c < |h| && (c - 1) / 2 == i ==> !less(h[c], h[j])
  {
    forall c | 0 < c < |h| && (c - 1) / 2 == i ensures !less(h[c], h[j]) {
      assert c == 2 * i + 1 || c == 2 * i + 2;
      assert AsymAt(less, h[c], h[j]) && AsymAt(less, h[j], h[j]);
    }
  }

  lemma DownStops<T(!new)>(h: seq<T>, less: (T, T) -> bool, i: nat, j: nat, i0: nat, lo: nat)
    requires StrictWeak(less) && DownReady(h, less, i, i0, lo) && j < |h| && i < |h| && !less(h[j], h[i])
    requires forall c :: 0 < c < |h| && (c - 1) / 2 == i ==> !less(h[c], h[j])
    ensures DownDone(h, less, i0, lo)
  {
    forall c | 0 < c < |h| && lo <= (c - 1) / 2 && c != i0 ensures EdgeOk(h, less, c) {
      if (c - 1) / 2 == i { assert TransAt(less, h[i], h[j], h[c]); }
    }
  }

  lemma DownLeaf<T>(h: seq<T>, less: (T, T) -> bool, i: nat, i0: nat, lo: nat)
    requires DownReady(h, less, i, i0, lo) && 2 * i + 1 >= |h|
    ensures DownDone(h, less, i0, lo)
  {
    hide EdgeOk;
  }

  method Init<T(!new)>(h: seq<T>, less: (T, T) -> bool) returns (r: seq<T>)
    requires StrictWeak(less)
    ensures IsHeap(r, less) && multiset(r) == multiset(h) && |r| == |h|
  {
    r := h;
    var i := |h| / 2;
    while i > 0
      invariant i <= |h| / 2 && |r| == |h| && multiset(r) == multiset(h)
      invariant forall c :: 0 <= c < |r| && (c > 0 ==> i <= (c - 1) / 2) ==> EdgeOk(r, less, c)
    {
      i := i - 1;
      var moved;
      r, moved := Down(r, less, i, i);
    }
  }

  method Push<T(!new)>(h: seq<T>, less: (T, T) -> bool, x: T) returns (r: seq<T>)
    requires StrictWeak(less) && IsHeap(h, less)
    ensures IsHeap(r, less) && multiset(r) == multiset(h) + multiset{x} && |r| == |h| + 1
  {
    var s := h + [x];
    forall c | 0 <= c < |h| ensures EdgeOk(s, less, c) { assert EdgeOk(h, less, c); }
    r := Up(s, less, |h|);
  }

  /** Pop removes a minimum. */
  method Pop<T(!new)>(h: seq<T>, less: (T, T) -> bool) returns (r: seq<T>, x: T)
    requires StrictWeak(less) && IsHeap(h, less) && |h| > 0
    ensures IsHeap(r, less) && multiset(h) == multiset(r) + multiset{x} && |r| == |h| - 1
    ensures x == h[0] && forall y :: y in h ==> !less(y, x)
  {
    HeadBelowAll(h, less);
    var n := |h| - 1;
    var s := Swap(h, 0, n);
    x := s[n];
    assert s == s[..n] + [x];
    forall c | 0 < c < n && (c - 1) / 2 != 0 ensures EdgeOk(s[..n], less, c) { assert EdgeOk(h, less, c); }
    var moved;
    r, moved := Down(s[..n], less, 0, 0);
  }

  /** Remove takes out the entry at position i. */
  method Remove<T(!new)>(h: seq<T>, less: (T, T) -> bool, i: nat) returns (r: seq<T>)
    requires StrictWeak(less) && IsHeap(h, less) && i < |h|
    ensures IsHeap(r, less) && multiset(h) == multiset(r) + multiset{h[i]} && |r| == |h| - 1
  {
    var n := |h| - 1;
    var s := Swap(h, i, n);
    assert s == s[..n] + [h[i]];
    r := s[..n];
    if i != n {
      forall c | 0 < c < |r| && (c - 1) / 2 != i && c != i ensures EdgeOk(r, less, c) { assert EdgeOk(h, less, c); }
      forall c | 0 < c < |r| && (c - 1) / 2 == i > 0 ensures !less(r[c], r[(i - 1) / 2]) {
        assert EdgeOk(h, less, c) && EdgeOk(h, less, i) && TransAt(less, h[(i - 1) / 2], h[i], h[c]);
      }
      var moved;
      r, moved := Down(r, less, i, 0);
      if !moved {
        r := Up(r, less, i);
      }
    } else {
      forall c | 0 <= c < |r| ensures EdgeOk(r, less, c) { assert EdgeOk(h, less, c); }
    }
  }

  lemma SubMultiset<T>(a: seq<T>, b: seq<T>)
    requires multiset(a) <= multiset(b)
    ensures forall y :: y in a ==> y in b
  {
    forall y | y in a ensures y in b { assert y in multiset(a); }
  }

  /** sort.Sort: some ordering of s in which nothing stands before a lesser element. */
  method Sort<T(!new)>(s: seq<T>, less: (T, T) -> bool) returns (r: seq<T>)
    requires StrictWeak(less)
    ensures multiset(r) == multiset(s) && |r| == |s|
    ensures forall i, j :: 0 <= i < j < |r| ==> !less(r[j], r[i])
  {
    var h := Init(s, less);
    r := [];
    while |h| > 0
      invariant IsHeap(h, less) && multiset(r) + multiset(h) == multiset(s) && |r| + |h| == |s|
      invariant forall i, j :: 0 <= i < j < |r| ==> !less(r[j], r[i])
      invariant forall i, y :: 0 <= i < |r| && y in h ==> !less(y, r[i])
      decreases |h|
    {
      ghost var was := h;
      var x;
      h, x := Pop(h, less);
      SubMultiset(h, was);
      assert x in was;
      r := r + [x];
    }
  }
}
