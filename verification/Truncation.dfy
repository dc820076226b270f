/** What truncating the pool amounts to: water-filling the pending lists, and emptying the
    queue by age. */
module Truncation {
  import opened Transactions
  import opened PoolSpec

  function Without(l: Lists, a: Address): Lists { map b | b in l && b != a :: l[b] }

  /** How many transactions the lists hold together. */
  ghost function Total(l: Lists): nat
    decreases |l|
  {
    if l == map[] then 0
    else
      var a :| a in l;
      WithoutSize(l, a);
      |l[a]| + Total(Without(l, a))
  }

  lemma WithoutSize(l: Lists, a: Address)
    requires a in l
    ensures |Without(l, a)| == |l| - 1
  {
    assert Without(l, a).Keys == l.Keys - {a};
  }

  lemma {:induction false} TotalPick(l: Lists, x: Address)
    requires x in l
    ensures Total(l) == |l[x]| + Total(Without(l, x))
    decreases |l|
  {
    var a :| a in l && Total(l) == |l[a]| + Total(Without(l, a));
    WithoutSize(l, a);
    WithoutSize(l, x);
    if a != x {
      TotalPick(Without(l, a), x);
      TotalPick(Without(l, x), a);
      assert Without(Without(l, a), x) == Without(Without(l, x), a);
    }
  }

  lemma TotalWith(l: Lists, a: Address, m: Items)
    ensures Total(With(l, a, m)) == Total(l) - |Of(l, a)| + |m|
  {
    var r := With(l, a, m);
    assert Without(r, a) == Without(l, a);
    if a in l { TotalPick(l, a); } else { assert Without(l, a) == l; }
    if a in r { TotalPick(r, a); } else { assert Without(r, a) == r; }
  }

  // ----- water-filling -----

  /** Every list of an account in s cut down to its k lowest nonces. */
  function CapOn(l: Lists, s: set<Address>, k: nat): Lists {
    map a | a in l :: if a in s then Lowest(l[a], k) else l[a]
  }

  /** The lists at water level k: every non-local list keeps its k lowest nonces. */
  function Level(l: Lists, locals: set<Address>, k: nat): Lists { CapOn(l, l.Keys - locals, k) }

  /** The non-local accounts above level k. */
  function Above(l: Lists, locals: set<Address>, k: nat): set<Address> {
    set a | a in l && a !in locals && |l[a]| > k
  }

  lemma LevelSame(l: Lists, locals: set<Address>, k: nat)
    requires Above(l, locals, k) == {}
    ensures Level(l, locals, k) == l
  {
    forall a | a in l && a !in locals ensures Lowest(l[a], k) == l[a] {
      assert a !in Above(l, locals, k);
      LowestAll(l[a], k);
    }
  }

  lemma LowestLowest(m: Items, k: nat)
    requires k > 0
    ensures Lowest(Lowest(m, k), k - 1) == Lowest(m, k - 1)
  {
    if |m| < k {
      LowestAll(m, k);
    } else {
      LowestStep(m, k);
      LowestMeaning(m, k);
      LowestAll(Lowest(m, k), k);
      LowestStep(Lowest(m, k), k);
    }
  }

  /** One pass over the accounts at the top lowers the level by one. */
  lemma PassLowers(l: Lists, locals: set<Address>, s: set<Address>, k: nat)
    requires k > 0 && s <= l.Keys - locals && Above(l, locals, k - 1) <= s
    ensures CapOn(Level(l, locals, k), s, k - 1) == Level(l, locals, k - 1)
  {
    hide Lowest;
    forall a | a in l && a !in locals
      ensures CapOn(Level(l, locals, k), s, k - 1)[a] == Lowest(l[a], k - 1)
    {
      if a in s {
        LowestLowest(l[a], k);
      } else {
        assert a !in Above(l, locals, k - 1);
        LowestAll(l[a], k);
        LowestAll(l[a], k - 1);
      }
    }
  }

  lemma LevelLength(l: Lists, locals: set<Address>, k: nat, a: Address)
    requires a in l && a !in locals
    ensures |Level(l, locals, k)[a]| == if |l[a]| <= k then |l[a]| else k
  {
    LowestMeaning(l[a], k);
  }

  lemma CutOne(m: Items)
    requires |m| > 1
    ensures Cut(m, |m| - 1) != map[]
  {
    assert m != map[];
    RankMax(m);
    assert MaxKey(m) in Cut(m, |m| - 1);
  }

  lemma CapOnPut(l: Lists, done: set<Address>, a: Address, k: nat)
    requires a in l && a !in done && Lowest(l[a], k) != map[]
    ensures var r := CapOn(l, done, k);
      a in r && r[a] == l[a] && With(r, a, Lowest(r[a], k)) == CapOn(l, done + {a}, k)
  {
    hide Lowest;
  }

  /** Capping one more account, from k + 1 to k transactions. */
  lemma CapStep(l: Lists, done: set<Address>, a: Address, k: nat)
    requires k > 0 && a in l && a !in done && |l[a]| == k + 1
    ensures var r := CapOn(l, done, k);
      && a in r && r[a] == l[a] && Cut(r[a], k) != map[]
      && With(r, a, Lowest(r[a], k)) == CapOn(l, done + {a}, k)
      && Total(CapOn(l, done + {a}, k)) == Total(r) - 1
  {
    hide Lowest, Total, Cut, With, CapOn;
    LowestMeaning(l[a], k);
    assert Lowest(l[a], k) != map[];
    CapOnPut(l, done, a, k);
    TotalWith(CapOn(l, done, k), a, Lowest(l[a], k));
    CutOne(l[a]);
  }

  lemma {:induction false} CapOnTotal(l: Lists, s: set<Address>, k: nat)
    requires k > 0 && forall a :: a in s ==> a in l && |l[a]| == k + 1
    ensures Total(CapOn(l, s, k)) == Total(l) - |s|
  {
    if s == {} {
      assert CapOn(l, s, k) == l;
    } else {
      var a :| a in s;
      CapOnTotal(l, s - {a}, k);
      CapStep(l, s - {a}, a, k);
      assert s - {a} + {a} == s;
    }
  }

  /** One level costs one transaction for every account above it. */
  lemma LevelTotal(l: Lists, locals: set<Address>, k: nat)
    requires k > 0
    ensures Total(Level(l, locals, k)) + |Above(l, locals, k)| == Total(Level(l, locals, k + 1))
  {
    var s := Above(l, locals, k);
    PassLowers(l, locals, s, k + 1);
    forall a | a in s ensures |Level(l, locals, k + 1)[a]| == k + 1 { LevelLength(l, locals, k + 1, a); }
    CapOnTotal(Level(l, locals, k + 1), s, k);
  }

  lemma LenTotal(l: Lists, a: Address)
    requires a in l
    ensures |l[a]| <= Total(l)
  {
    TotalPick(l, a);
  }

  /** What truncatePending promises when the lists exceed the limit: they end at a water level
      no lower than the guaranteed slots, no lower than needed, and under the limit unless at
      the guarantee. */
  ghost predicate WaterFilled(before: Lists, after: Lists, locals: set<Address>, level: nat, guarantee: pos, limit: nat) {
    && level >= guarantee && after == Level(before, locals, level)
    && (Total(after) <= limit || level == guarantee)
    && (after == before || Total(Level(before, locals, level + 1)) > limit)
  }

  /** `after` keeps the min(length, level) lowest nonces of `before`. */
  ghost predicate LowestOf(before: Items, after: Items, level: nat) {
    && |after| == (if |before| <= level then |before| else level)
    && (forall n :: n in after ==> n in before && after[n] == before[n])
    && (forall i, j :: i in after && j in before && j !in after ==> i < j)
  }

  lemma LowestIs(m: Items, k: nat)
    ensures LowestOf(m, Lowest(m, k), k)
    ensures |m| > k <==> Lowest(m, k) != m
  {
    LowestMeaning(m, k);
    if |m| <= k { LowestAll(m, k); }
  }

  /** Read account by account: local lists are untouched, every other keeps its min(length,
      level) lowest nonces; an undershoot is smaller than the number of accounts cut. */
  lemma WaterFilledMeans(before: Lists, after: Lists, locals: set<Address>, level: nat, guarantee: pos, limit: nat)
    requires WaterFilled(before, after, locals, level, guarantee, limit)
    ensures after.Keys == before.Keys
    ensures forall a :: a in before && a in locals ==> after[a] == before[a]
    ensures forall a :: a in before && a !in locals ==> LowestOf(before[a], after[a], level)
    ensures Total(after) > limit ==> forall a :: a in before && a !in locals ==> |after[a]| <= guarantee
    ensures after != before ==> Total(after) + |Above(before, locals, level)| > limit
    ensures forall a :: a in before ==> (a in Above(before, locals, level) <==> after[a] != before[a])
  {
    LevelTotal(before, locals, level);
    hide Lowest, Total, LowestOf, CapOn;
    LevelKeys(before, locals, level);
    forall a | a in before && a !in locals
      ensures LowestOf(before[a], after[a], level) && |after[a]| <= level && (|before[a]| > level <==> after[a] != before[a])
    {
      LowestIs(before[a], level);
      LevelLength(before, locals, level, a);
    }
  }

  lemma LevelKeys(l: Lists, locals: set<Address>, k: nat)
    ensures Level(l, locals, k).Keys == l.Keys
    ensures forall a :: a in l ==> Level(l, locals, k)[a] == if a in locals then l[a] else Lowest(l[a], k)
  {
    hide Lowest;
  }

  /** Progress of the truncation: the lists stand at a level that was needed. */
  ghost predicate AtLevel(before: Lists, now: Lists, locals: set<Address>, level: nat, limit: nat) {
    now == Level(before, locals, level) && (now == before || Total(Level(before, locals, level + 1)) > limit)
  }

  /** A pass over the accounts at the current level. */
  lemma PassAt(before: Lists, now: Lists, next: Lists, locals: set<Address>, s: set<Address>, level: nat, limit: nat)
    requires level > 1 && AtLevel(before, now, locals, level, limit) && Total(now) > limit
    requires s <= before.Keys - locals && Above(before, locals, level - 1) <= s
    requires next == CapOn(now, s, level - 1)
    ensures AtLevel(before, next, locals, level - 1, limit)
  {
    PassLowers(before, locals, s, level);
  }

  /** The accounts whose list is at least as long as the level all stand at it. */
  lemma TopsAt(before: Lists, now: Lists, locals: set<Address>, level: nat, limit: nat, s: seq<Address>)
    requires AtLevel(before, now, locals, level, limit)
    requires forall a :: a in s ==> a in before && a !in locals && |before[a]| >= level
    ensures forall a :: a in s ==> a in now && |now[a]| == level
  {
    hide Lowest, Total;
    forall a | a in s ensures a in now && |now[a]| == level { LevelLength(before, locals, level, a); }
  }

  lemma AboveMono(l: Lists, locals: set<Address>, j: nat, k: nat)
    requires j <= k
    ensures Above(l, locals, k) <= Above(l, locals, j)
  {}

  predicate Longest(l: Lists, s: set<Address>, a: Address)
    requires s <= l.Keys
  {
    a in s && forall b :: b in s ==> |l[b]| <= |l[a]|
  }

  lemma {:induction false} LongestExists(l: Lists, s: set<Address>)
    requires s <= l.Keys && s != {}
    ensures exists a :: Longest(l, s, a)
  {
    var x :| x in s;
    if s == {x} {
      assert Longest(l, s, x);
    } else {
      assert s - {x} != {};
      LongestExists(l, s - {x});
      var y :| Longest(l, s - {x}, y);
      assert Longest(l, s, if |l[x]| <= |l[y]| then y else x);
    }
  }

  /** Where truncatePending stands between two pops: every account above the guarantee is
      either an offender already, at or above the level, or waits at or below it. */
  ghost predicate Popped(l: Lists, locals: set<Address>, guarantee: nat, offenders: seq<Address>, waiting: set<Address>, level: nat, over: bool) {
    && waiting <= l.Keys && Members(offenders) <= l.Keys && level >= guarantee
    && Members(offenders) + waiting == Above(l, locals, guarantee)
    && Members(offenders) !! waiting
    && (forall i, j :: 0 <= i < j < |offenders| ==> offenders[i] != offenders[j])
    && (forall a :: a in waiting ==> |l[a]| <= level)
    && (over ==> forall a :: a in offenders ==> |l[a]| >= level)
  }

  lemma PopStart(l: Lists, locals: set<Address>, guarantee: nat, limit: nat)
    ensures Popped(l, locals, guarantee, [], Above(l, locals, guarantee), Total(l) + guarantee, true)
    ensures AtLevel(l, l, locals, Total(l) + guarantee, limit)
    ensures Above(l, locals, guarantee) == {} ==> AtLevel(l, l, locals, guarantee, limit)
  {
    hide Total, Level;
    var k := Total(l) + guarantee;
    forall a | a in l ensures |l[a]| <= k { LenTotal(l, a); }
    assert Above(l, locals, k) == {};
    LevelSame(l, locals, k);
    if Above(l, locals, guarantee) == {} { LevelSame(l, locals, guarantee); }
  }

  /** Popping the longest waiting account x. */
  lemma PopReady(l: Lists, locals: set<Address>, guarantee: nat, offenders: seq<Address>, waiting: set<Address>, level: nat, x: Address)
    requires Popped(l, locals, guarantee, offenders, waiting, level, true) && Longest(l, waiting, x)
    ensures x in waiting && x in l && x !in locals && guarantee < |l[x]| <= level
    ensures forall i, j :: 0 <= i < j < |offenders| ==> offenders[i] != offenders[j]
    ensures Above(l, locals, |l[x]|) <= Members(offenders)
    ensures forall a :: a in offenders ==> a in l && a !in locals && |l[a]| >= level
  {
    assert x in Above(l, locals, guarantee);
    forall a | a in offenders ensures a in l && a !in locals {
      assert a in Members(offenders) + waiting;
      assert a in Above(l, locals, guarantee);
    }
    forall a | a in Above(l, locals, |l[x]|) ensures a in Members(offenders) {
      assert a in Above(l, locals, guarantee);
      assert a in Members(offenders) + waiting;
    }
  }

  lemma PopDone(l: Lists, locals: set<Address>, guarantee: nat, offenders: seq<Address>, waiting: set<Address>, level: nat, x: Address,
                level': nat, over: bool)
    requires Popped(l, locals, guarantee, offenders, waiting, level, true) && Longest(l, waiting, x)
    requires |l[x]| <= level' <= level && (over ==> level' == |l[x]|)
    ensures Popped(l, locals, guarantee, offenders + [x], waiting - {x}, level', over)
  {
    assert x in Above(l, locals, guarantee);
    assert Members(offenders + [x]) == Members(offenders) + {x};
    assert Members(offenders + [x]) + (waiting - {x}) == Members(offenders) + waiting;
  }

  /** An account that waits has not been cut yet. */
  lemma WaitingSame(before: Lists, now: Lists, locals: set<Address>, level: nat, limit: nat, x: Address)
    requires AtLevel(before, now, locals, level, limit) && x in before && |before[x]| <= level
    ensures x in now && now[x] == before[x]
  {
    LowestAll(before[x], level);
  }

  lemma PoppedWaiting(l: Lists, locals: set<Address>, guarantee: nat, offenders: seq<Address>, waiting: set<Address>, level: nat)
    requires Popped(l, locals, guarantee, offenders, waiting, level, true) && waiting != {}
    ensures waiting <= l.Keys && exists a :: Longest(l, waiting, a)
  {
    LongestExists(l, waiting);
  }

  lemma PopFirst(l: Lists, locals: set<Address>, guarantee: nat, offenders: seq<Address>, level: nat, limit: nat)
    requires offenders == [] && Above(l, locals, level) <= Members(offenders)
    ensures AtLevel(l, l, locals, level, limit)
  {
    LevelSame(l, locals, level);
  }

  lemma PoppedAll(l: Lists, locals: set<Address>, guarantee: nat, offenders: seq<Address>, level: nat)
    requires Popped(l, locals, guarantee, offenders, {}, level, true)
    ensures level >= guarantee
    ensures forall i, j :: 0 <= i < j < |offenders| ==> offenders[i] != offenders[j]
    ensures forall a :: a in offenders ==> a in l && a !in locals && |l[a]| >= level
    ensures Above(l, locals, guarantee) <= Members(offenders)
  {
    forall a | a in offenders ensures a in l && a !in locals { assert a in Above(l, locals, guarantee); }
  }

  lemma AtLevelFills(before: Lists, after: Lists, locals: set<Address>, level: nat, guarantee: pos, limit: nat)
    requires AtLevel(before, after, locals, level, limit) && level >= guarantee
    requires Total(after) <= limit || level == guarantee
    ensures WaterFilled(before, after, locals, level, guarantee, limit)
  {}

  // ----- the queue -----

  /** The k lowest-nonce queued transactions of a are gone; nothing else changed. */
  function DropLowest(p: Pool, a: Address, k: nat): Pool {
    p.(queue := With(p.queue, a, Cut(Of(p.queue, a), k)), known := p.known - TxsOf(Lowest(Of(p.queue, a), k)))
  }

  lemma DropNone(p: Pool, a: Address)
    requires Inv(p)
    ensures DropLowest(p, a, 0) == p
  {
    assert Cut(Of(p.queue, a), 0) == Of(p.queue, a);
    assert Lowest(Of(p.queue, a), 0) == map[];
    WithSame(p.queue, a);
  }

  /** The lowest nonce left, removed by its hash, is found in the queue branch of removeTx,
      because no pending transaction has that nonce. */
  lemma DropNext(p: Pool, a: Address, k: nat)
    requires Inv(p) && Inv(DropLowest(p, a, k)) && k < |Of(p.queue, a)|
    ensures var r := DropLowest(p, a, k); var left := Of(r.queue, a);
      && left != map[] && RemoveTx(r, left[MinKey(left)]) == DropLowest(p, a, k + 1)
      && left[MinKey(left)].from == a && MinKey(left) !in Of(r.pending, a)
  {
    var m, r := Of(p.queue, a), DropLowest(p, a, k);
    hide Inv, Of, With, Delete, Lowest, Cut, TxsOf, WellPlaced;
    OfWith(p.queue, a, Cut(m, k), a);
    CutNext(m, k);
    var n := MinKey(Cut(m, k));
    AccountInv(r, a);
    assert Holds(Of(r.queue, a), m[n]);
    PendingSame(r, a);
    WithTwice(p.queue, a, Cut(m, k), Cut(m, k + 1));
    PutTxs(Lowest(m, k), n, m[n]);
    assert r.known - {m[n]} == p.known - TxsOf(Lowest(m, k + 1));
  }

  lemma PendingSame(p: Pool, a: Address)
    requires Inv(p)
    ensures With(p.pending, a, Of(p.pending, a)) == p.pending
  {
    WithSame(p.pending, a);
  }

  lemma WithTwice(l: Lists, a: Address, m: Items, r: Items)
    ensures With(With(l, a, m), a, r) == With(l, a, r)
  {}

  lemma PutTxs(m: Items, n: uint64, t: Tx)
    requires n !in m
    ensures TxsOf(m[n := t]) == TxsOf(m) + {t}
  {
    var r := m[n := t];
    forall x ensures x in TxsOf(r) <==> x in TxsOf(m) || x == t {
      if x in TxsOf(m) { var k :| k in m && m[k] == x; assert r[k] == x; }
      if x == t { assert r[n] == x; }
    }
  }

  lemma CutNext(m: Items, k: nat)
    requires k < |m|
    ensures Cut(m, k) != map[]
    ensures var n := MinKey(Cut(m, k));
      && n in m && n !in Lowest(m, k) && Cut(m, k)[n] == m[n]
      && Lowest(m, k + 1) == Lowest(m, k)[n := m[n]] && Cut(m, k + 1) == Delete(Cut(m, k), n)
  {
    hide Lowest;
    LowestStep(m, k + 1);
    LowestIn(m, k + 1);
    var x := MaxKey(Lowest(m, k + 1));
    LowestMeaning(m, k);
    LowestMeaning(m, k + 1);
    assert x in Cut(m, k);
    assert MinKey(Cut(m, k)) == x;
  }

  /** The lists of the accounts in s. */
  function Only(l: Lists, s: set<Address>): Lists { map a | a in l && a in s :: l[a] }

  lemma OnlyLess(l: Lists, s: set<Address>, r: set<Address>, x: Address)
    requires forall a :: a in r <==> a in s && a != x
    ensures With(Only(l, s), x, map[]) == Only(l, r)
  {}

  lemma {:induction false} TotalOnly(l: Lists, s: set<Address>)
    ensures Total(Only(l, s)) <= Total(l)
    decreases |l|
  {
    if l == map[] {
      assert Only(l, s) == map[];
    } else {
      var a :| a in l;
      TotalPick(l, a);
      WithoutSize(l, a);
      TotalOnly(Without(l, a), s);
      if a in s {
        TotalPick(Only(l, s), a);
        assert Without(Only(l, s), a) == Only(Without(l, a), s);
      } else {
        assert Only(l, s) == Only(Without(l, a), s);
      }
    }
  }

  predicate Oldest(beats: map<Address, nat>, s: set<Address>, a: Address)
    requires s <= beats.Keys
  {
    a in s && forall b :: b in s ==> beats[a] <= beats[b]
  }

  lemma {:induction false} OldestExists(beats: map<Address, nat>, s: set<Address>)
    requires s <= beats.Keys && s != {}
    ensures exists a :: Oldest(beats, s, a)
  {
    var x :| x in s;
    if s == {x} {
      assert Oldest(beats, s, x);
    } else {
      assert s - {x} != {};
      OldestExists(beats, s - {x});
      var y :| Oldest(beats, s - {x}, y);
      assert Oldest(beats, s, if beats[x] <= beats[y] then x else y);
    }
  }

  /** a's list has lost some of its lowest nonces, or nothing. */
  ghost predicate Trimmed(before: Lists, after: Lists, a: Address) {
    |Of(after, a)| <= |Of(before, a)| && Of(after, a) == Cut(Of(before, a), |Of(before, a)| - |Of(after, a)|)
  }

  predicate Older(beats: map<Address, nat>, a: Address, b: Address) { a in beats && b in beats && beats[a] < beats[b] }

  /** Local lists are untouched, the others only lose lowest nonces, and an account loses
      something only once every account with an older heartbeat has lost everything. */
  ghost predicate ByAge(before: Lists, after: Lists, locals: set<Address>, beats: map<Address, nat>) {
    && (forall a :: a in locals ==> Of(after, a) == Of(before, a))
    && (forall a :: Trimmed(before, after, a))
    && (forall a, b :: a in before && b in before && a !in locals && Older(beats, a, b) && Of(after, b) != before[b] ==> a !in after)
  }

  /** Between two accounts: those visited are empty, the rest untouched. */
  ghost predicate Emptied(before: Lists, now: Lists, locals: set<Address>, beats: map<Address, nat>, todo: set<Address>) {
    && todo <= before.Keys - locals && before.Keys <= beats.Keys
    && now == Only(before, locals + todo)
    && (forall a, b :: a in before && a !in locals && a !in todo && b in todo ==> beats[a] <= beats[b])
  }

  lemma CutNothing(m: Items)
    ensures Cut(m, 0) == m && Cut(m, |m|) == map[]
  {
    LowestAll(m, |m|);
    assert Lowest(m, 0) == map[];
  }

  lemma TrimmedFully(before: Lists, after: Lists, a: Address)
    requires Of(after, a) == Of(before, a) || Of(after, a) == map[]
    ensures Trimmed(before, after, a)
  {
    CutNothing(Of(before, a));
  }

  lemma EmptiedStart(before: Lists, locals: set<Address>, beats: map<Address, nat>)
    requires before.Keys <= beats.Keys
    ensures Emptied(before, before, locals, beats, before.Keys - locals)
  {
    assert Only(before, locals + (before.Keys - locals)) == before;
  }

  lemma EmptiedByAge(before: Lists, now: Lists, locals: set<Address>, beats: map<Address, nat>, todo: set<Address>)
    requires Emptied(before, now, locals, beats, todo)
    ensures ByAge(before, now, locals, beats)
  {
    forall a ensures Trimmed(before, now, a) { TrimmedFully(before, now, a); }
    hide Trimmed;
  }

  lemma EmptyNext(before: Lists, now: Lists, locals: set<Address>, beats: map<Address, nat>, todo: set<Address>, x: Address)
    requires Emptied(before, now, locals, beats, todo) && todo <= beats.Keys && Oldest(beats, todo, x)
    ensures x in now && now[x] == before[x]
    ensures Emptied(before, With(now, x, Cut(before[x], |before[x]|)), locals, beats, todo - {x})
  {
    CutNothing(before[x]);
    assert x in locals + todo && x in now && now[x] == before[x];
    hide Cut, With, Only;
    OnlyLess(before, locals + todo, locals + (todo - {x}), x);
  }

  lemma TrimLast(before: Lists, now: Lists, locals: set<Address>, beats: map<Address, nat>, todo: set<Address>, x: Address, k: nat)
    requires Emptied(before, now, locals, beats, todo) && todo <= beats.Keys && Oldest(beats, todo, x) && k < |before[x]|
    ensures ByAge(before, With(now, x, Cut(before[x], k)), locals, beats)
  {
    hide Trimmed, Cut, With;
    var after := With(now, x, Cut(before[x], k));
    CutSize(before[x], k);
    WithKeys(now, x, Cut(before[x], k));
    forall a ensures Of(after, a) == if a == x then Cut(before[x], k) else Of(now, a) { OfWith(now, x, Cut(before[x], k), a); }
    forall a ensures Trimmed(before, after, a) {
      if a == x { TrimmedTo(before, after, x, k); } else { TrimmedFully(before, after, a); }
    }
  }

  lemma TrimmedTo(before: Lists, after: Lists, a: Address, k: nat)
    requires k <= |Of(before, a)| && Of(after, a) == Cut(Of(before, a), k)
    ensures Trimmed(before, after, a)
  {
    CutSize(Of(before, a), k);
  }

  lemma CutSize(m: Items, k: nat)
    ensures |Cut(m, k)| == if |m| <= k then 0 else |m| - k
  {
    LowestMeaning(m, k);
    LowestCut(m, k);
    hide Lowest, Cut;
    CountSplit(m, Lowest(m, k), Cut(m, k));
  }

  lemma DropTotal(p: Pool, a: Address, k: nat)
    requires k <= |Of(p.queue, a)|
    ensures Total(DropLowest(p, a, k).queue) == Total(p.queue) - k
  {
    CutSize(Of(p.queue, a), k);
    TotalWith(p.queue, a, Cut(Of(p.queue, a), k));
  }

  lemma LocalShare(before: Lists, after: Lists, locals: set<Address>, beats: map<Address, nat>)
    requires ByAge(before, after, locals, beats) && (forall a :: a in before ==> before[a] != map[]) && forall a :: a in after ==> after[a] != map[]
    ensures Total(Only(before, locals)) <= Total(after)
  {
    forall a | a in locals ensures a in before <==> a in after { assert Of(after, a) == Of(before, a); }
    assert Only(after, locals) == Only(before, locals);
    TotalOnly(after, locals);
  }

  /** The non-local accounts whose queue has not moved for longer than `lifetime`. */
  function Idle(l: Lists, locals: set<Address>, beats: map<Address, nat>, now: nat, lifetime: nat): set<Address>
    requires l.Keys <= beats.Keys
  {
    set a | a in l && a !in locals && now > beats[a] + lifetime
  }

  lemma EvictNone(l: Lists, idle: set<Address>)
    requires idle <= l.Keys
    ensures Only(l, l.Keys - (idle - l.Keys)) == l
    ensures idle - {} == idle
  {}

  lemma EvictNext(l: Lists, idle: set<Address>, todo: set<Address>, a: Address)
    requires a in todo && todo <= l.Keys
    ensures var q := Only(l, l.Keys - (idle - todo));
      && a in q && q[a] == l[a]
      && (a in idle ==> With(q, a, Cut(Of(q, a), |q[a]|)) == Only(l, l.Keys - (idle - (todo - {a}))))
      && (a !in idle ==> q == Only(l, l.Keys - (idle - (todo - {a}))))
  {
    var keep, keep' := l.Keys - (idle - todo), l.Keys - (idle - (todo - {a}));
    assert a in keep;
    CutNothing(l[a]);
    hide Cut, With, Only;
    if a in idle {
      OnlyLess(l, keep, keep', a);
    } else {
      assert keep' == keep;
    }
  }
}
