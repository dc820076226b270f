/** Transactions, and the nonce-keyed maps every account's lists are made of. */
module Transactions {

  const MAX_UINT64: nat := 0xFFFF_FFFF_FFFF_FFFF

  type uint64 = n: nat | n <= MAX_UINT64

  type pos = n: nat | n > 0 witness 1

  type Address = nat

  function Min(a: nat, b: nat): nat { if a < b then a else b }

  function Max(a: int, b: int): int { if a < b then b else a }

  datatype Option<+T> = None | Some(value: T)

  /** A signed transaction. `payload` stands for everything the pool never inspects;
      hashing is injective, so a transaction also serves as its own hash. A legacy
      transaction has feeCap == tipCap == gasPrice. */
  datatype Tx = Tx(from: Address, nonce: uint64, gas: uint64, feeCap: nat, tipCap: nat, value: nat, size: pos, payload: nat) {
    function Cost(): nat { feeCap * gas + value }

    function EffectiveTip(baseFee: Option<nat>): int {
      if baseFee.None? || tipCap <= feeCap - baseFee.value then tipCap else feeCap - baseFee.value
    }

    function NumSlots(): nat { (size + 32 * 1024 - 1) / (32 * 1024) }
  }

  /** The contents of one list: nonce to transaction. */
  type Items = map<uint64, Tx>

  ghost predicate Indexed(m: Items) {
    forall n :: n in m ==> m[n].nonce == n
  }

  function Delete(m: Items, k: uint64): Items { map n | n in m && n != k :: m[n] }

  function Below(m: Items, t: nat): Items { map n | n in m && n < t :: m[n] }

  function From(m: Items, t: nat): Items { map n | n in m && n >= t :: m[n] }

  /** What a filter takes out and what it leaves. */
  function Selected(m: Items, f: Tx -> bool): Items { map n | n in m && f(m[n]) :: m[n] }

  function Rejected(m: Items, f: Tx -> bool): Items { map n | n in m && !f(m[n]) :: m[n] }

  /** s lists m's transactions by increasing nonce. */
  ghost predicate IsFlat(s: seq<Tx>, m: Items) {
    && |s| == |m|
    && (forall i :: 0 <= i < |s| ==> s[i].nonce in m && m[s[i].nonce] == s[i])
    && (forall i, j :: 0 <= i < j < |s| ==> s[i].nonce < s[j].nonce)
  }

  /** s lists exactly m's transactions, in some order and once each. */
  ghost predicate Lists(s: seq<Tx>, m: Items) {
    |s| == |m| && forall t :: t in s <==> t.nonce in m && m[t.nonce] == t
  }

  lemma CountSplit(m: Items, a: Items, b: Items)
    requires a.Keys + b.Keys == m.Keys && a.Keys !! b.Keys
    ensures |m| == |a| + |b|
  {}

  /** The elements of a slice. */
  function Members<T(==)>(s: seq<T>): set<T> { set t | t in s }

  lemma MembersFirst<T>(s: seq<T>)
    requires |s| > 0
    ensures Members(s) == {s[0]} + Members(s[1..])
  {}

  lemma MembersSnoc<T>(s: seq<T>, i: nat)
    requires i < |s|
    ensures Members(s[..i + 1]) == Members(s[..i]) + {s[i]}
  {
    assert s[..i + 1] == s[..i] + [s[i]];
  }

  ghost function NoncesOf(s: seq<Tx>): set<uint64> { set t | t in s :: t.nonce }

  lemma {:induction false} NoncesCount(s: seq<Tx>)
    requires forall i, j :: 0 <= i < j < |s| ==> s[i].nonce < s[j].nonce
    ensures |NoncesOf(s)| == |s|
  {
    if |s| > 0 {
      var p := s[..|s| - 1];
      var x := s[|s| - 1];
      NoncesCount(p);
      assert s == p + [x];
      assert NoncesOf(s) == NoncesOf(p) + {x.nonce};
    }
  }

  /** A flattened list misses no nonce. */
  lemma FlatCovers(s: seq<Tx>, m: Items)
    requires IsFlat(s, m)
    ensures NoncesOf(s) == m.Keys
    ensures forall n :: n in m ==> m[n] in s
  {
    NoncesCount(s);
    SubsetSize(NoncesOf(s), m.Keys);
  }

  lemma SubsetSize<T>(a: set<T>, b: set<T>)
    requires a <= b
    ensures |a| <= |b|
    ensures |a| == |b| ==> a == b
  {
    assert b == a + (b - a);
  }

  lemma FlatLast(s: seq<Tx>, m: Items)
    requires IsFlat(s, m) && |s| > 0
    ensures var t := s[|s| - 1]; t.nonce in m && m[t.nonce] == t && (forall n :: n in m ==> n <= t.nonce)
    ensures IsFlat(s[..|s| - 1], Delete(m, s[|s| - 1].nonce))
  {
    var k := |s| - 1;
    FlatTop(s, m);
    WithoutKey(m, s[k].nonce);
  }

  lemma FlatTop(s: seq<Tx>, m: Items)
    requires IsFlat(s, m) && |s| > 0
    ensures forall n :: n in m ==> n <= s[|s| - 1].nonce
  {
    FlatCovers(s, m);
    forall n | n in m ensures n <= s[|s| - 1].nonce {
      var i :| 0 <= i < |s| && s[i] == m[n];
    }
  }

  /** There is one flattened list: sorting by nonce is deterministic. */
  lemma {:induction false} FlatUnique(s: seq<Tx>, r: seq<Tx>, m: Items)
    requires IsFlat(s, m) && IsFlat(r, m)
    ensures s == r
    decreases |s|
  {
    if |s| > 0 {
      var k := |s| - 1;
      FlatLast(s, m);
      FlatLast(r, m);
      assert s[k].nonce == r[k].nonce;
      FlatUnique(s[..k], r[..k], Delete(m, s[k].nonce));
      assert s == s[..k] + [s[k]] && r == r[..k] + [r[k]];
    }
  }

  lemma {:induction false} FindMin(s: set<uint64>) returns (k: uint64)
    requires s != {}
    ensures k in s && forall j :: j in s ==> k <= j
  {
    var x :| x in s;
    k := x;
    if s != {x} {
      assert s - {x} != {};
      var y := FindMin(s - {x});
      k := if y < x then y else x;
      assert forall j :: j in s ==> j == x || j in s - {x};
    }
  }

  lemma MinExists(s: set<uint64>)
    requires s != {}
    ensures exists k :: k in s && forall j :: j in s ==> k <= j
  {
    var k := FindMin(s);
  }

  lemma {:induction false} FindMax(s: set<uint64>) returns (k: uint64)
    requires s != {}
    ensures k in s && forall j :: j in s ==> j <= k
  {
    var x :| x in s;
    k := x;
    if s != {x} {
      assert s - {x} != {};
      var y := FindMax(s - {x});
      k := if y > x then y else x;
      assert forall j :: j in s ==> j == x || j in s - {x};
    }
  }

  lemma MaxExists(s: set<uint64>)
    requires s != {}
    ensures exists k :: k in s && forall j :: j in s ==> j <= k
  {
    var k := FindMax(s);
  }

  function MinKey(m: Items): (k: uint64)
    requires m != map[]
    ensures k in m && forall j :: j in m ==> k <= j
  {
    assert m.Keys != {} by { var n :| n in m; }
    MinExists(m.Keys);
    var k :| k in m && forall j :: j in m ==> k <= j;
    k
  }

  function MaxKey(m: Items): (k: uint64)
    requires m != map[]
    ensures k in m && forall j :: j in m ==> j <= k
  {
    assert m.Keys != {} by { var n :| n in m; }
    MaxExists(m.Keys);
    var k :| k in m && forall j :: j in m ==> j <= k;
    k
  }

  lemma WithoutKey(m: Items, k: uint64)
    requires k in m
    ensures |Delete(m, k)| == |m| - 1
  {
    assert Delete(m, k).Keys == m.Keys - {k};
  }

  /** How many entries of m lie below n. */
  function Rank(m: Items, n: nat): nat { |Below(m, n)| }

  /** The k lowest-nonce transactions of m. */
  function Lowest(m: Items, k: nat): Items { map n | n in m && Rank(m, n) < k :: m[n] }

  lemma RankBounds(m: Items, n: nat)
    ensures Rank(m, n) <= |m|
    ensures n in m ==> Rank(m, n) < |m|
    ensures forall i: nat :: i <= n ==> Rank(m, i) <= Rank(m, n)
    ensures forall i: uint64 :: i in m && i < n ==> Rank(m, i) < Rank(m, n)
  {
    SubsetSize(Below(m, n).Keys, m.Keys);
    if n in m {
      assert n !in Below(m, n).Keys;
    }
    forall i: nat | i <= n ensures Rank(m, i) <= Rank(m, n) && (i in m && i < n ==> Rank(m, i) < Rank(m, n)) {
      SubsetSize(Below(m, i).Keys, Below(m, n).Keys);
      if i in m && i < n { assert i in Below(m, n).Keys && i !in Below(m, i).Keys; }
    }
  }

  lemma LowestIn(m: Items, k: nat)
    ensures forall n :: n in Lowest(m, k) ==> n in m && Lowest(m, k)[n] == m[n]
  {}

  lemma LowestAll(m: Items, k: nat)
    requires |m| <= k
    ensures Lowest(m, k) == m
  {
    forall n | n in m ensures Rank(m, n) < k { RankBounds(m, n); }
  }

  lemma RankDelete(m: Items, x: uint64, n: nat)
    requires n <= x
    ensures Rank(m, n) == Rank(Delete(m, x), n)
  {
    assert Below(m, n) == Below(Delete(m, x), n);
  }

  lemma RankMax(m: Items)
    requires m != map[]
    ensures Rank(m, MaxKey(m)) == |m| - 1 == |Delete(m, MaxKey(m))|
  {
    WithoutKey(m, MaxKey(m));
    assert Below(m, MaxKey(m)) == Delete(m, MaxKey(m));
  }

  lemma LowestSame(m: Items, x: uint64, k: nat)
    requires Rank(m, x) >= k && forall n :: n in m && n != x ==> Rank(m, n) == Rank(Delete(m, x), n)
    ensures Lowest(m, k) == Lowest(Delete(m, x), k)
  {
    hide Rank;
    var l, r := Lowest(m, k), Lowest(Delete(m, x), k);
    forall n ensures n in l <==> n in r {}
  }

  lemma LowestDropMax(m: Items, k: nat)
    requires k < |m|
    ensures m != map[] && Lowest(m, k) == Lowest(Delete(m, MaxKey(m)), k) && |Delete(m, MaxKey(m))| == |m| - 1
  {
    assert m.Keys != {};
    var x := MaxKey(m);
    RankMax(m);
    forall n | n in m && n != x ensures Rank(m, n) == Rank(Delete(m, x), n) { RankDelete(m, x, n); }
    LowestSame(m, x, k);
    hide *;
  }

  /** Lowest keeps exactly min(|m|, k) entries, each below every dropped one. */
  lemma {:induction false} LowestMeaning(m: Items, k: nat)
    ensures |Lowest(m, k)| == if |m| <= k then |m| else k
    ensures forall i, j :: i in Lowest(m, k) && j in m && j !in Lowest(m, k) ==> i < j
    decreases |m|
  {
    if |m| > k {
      LowestDropMax(m, k);
      LowestMeaning(Delete(m, MaxKey(m)), k);
    } else {
      LowestAll(m, k);
    }
    forall i, j | i in Lowest(m, k) && j in m && j !in Lowest(m, k) ensures i < j {
      RankBounds(m, i);
    }
  }

  /** ... and that determines it. */
  lemma LowestUnique(m: Items, k: nat, r: Items)
    requires |r| == if |m| <= k then |m| else k
    requires forall n :: n in r ==> n in m && m[n] == r[n]
    requires forall i, j :: i in r && j in m && j !in r ==> i < j
    ensures r == Lowest(m, k)
  {
    var l := Lowest(m, k);
    LowestMeaning(m, k);
    assert forall n :: n in l ==> l[n] == m[n];
    hide Lowest;
    if exists n :: n in r.Keys && n !in l.Keys {
      var n :| n in r.Keys && n !in l.Keys;
      forall i | i in l ensures i in r {
        assert i < n && i in m;
      }
      assert l.Keys <= r.Keys;
      SubsetSize(l.Keys, r.Keys);
    } else {
      assert r.Keys <= l.Keys;
      SubsetSize(r.Keys, l.Keys);
    }
    assert r.Keys == l.Keys;
  }

  /** Dropping one at a time: the k lowest less their maximum are the k-1 lowest. */
  lemma LowestStep(m: Items, k: nat)
    requires 0 < k <= |m|
    ensures Lowest(m, k) != map[]
    ensures Lowest(m, k - 1) == Delete(Lowest(m, k), MaxKey(Lowest(m, k)))
  {
    var l := Lowest(m, k);
    LowestMeaning(m, k);
    assert |l| == k;
    WithoutKey(l, MaxKey(l));
    LowestUnique(m, k - 1, Delete(l, MaxKey(l)));
  }

  /** First nonce at or above n that is not in m. */
  function RunEnd(m: Items, n: nat): (e: nat)
    requires n <= MAX_UINT64 + 1
    ensures n <= e <= MAX_UINT64 + 1
    ensures forall k: uint64 :: n <= k < e ==> k in m
    ensures e <= MAX_UINT64 ==> e !in m
    decreases MAX_UINT64 + 1 - n
  {
    if n <= MAX_UINT64 && n in m then RunEnd(m, n + 1) else n
  }
}
