/** txPricedList: the remote transactions in two price heaps, for eviction. */
module PricedLists {
  import opened Transactions
  import opened Lookup
  import Heap

  function Compare(a: int, b: int): int { if a < b then -1 else if a > b then 1 else 0 }

  /** priceHeap.cmp: effective tip if there is a base fee, then fee cap, then tip cap. */
  function Cmp(baseFee: Option<nat>, a: Tx, b: Tx): int {
    var tips := if baseFee.Some? then Compare(a.EffectiveTip(baseFee), b.EffectiveTip(baseFee)) else 0;
    var caps := Compare(a.feeCap, b.feeCap);
    if tips != 0 then tips else if caps != 0 then caps else Compare(a.tipCap, b.tipCap)
  }

  /** priceHeap.Less: cheaper first, and the higher nonce first among equals. */
  predicate PriceLess(baseFee: Option<nat>, a: Tx, b: Tx) {
    Cmp(baseFee, a, b) < 0 || (Cmp(baseFee, a, b) == 0 && a.nonce > b.nonce)
  }

  function Less(baseFee: Option<nat>): (Tx, Tx) -> bool {
    (a: Tx, b: Tx) => PriceLess(baseFee, a, b)
  }

  lemma PriceOrder(baseFee: Option<nat>)
    ensures Heap.StrictWeak(Less(baseFee))
  {
    var less := Less(baseFee);
    forall a, b ensures Heap.AsymAt(less, a, b) {}
    forall a, b, c ensures Heap.TransAt(less, a, b, c) {}
  }

  /** x leaves the miner more than y over a base fee of b. */
  ghost predicate TipsMore(b: nat, x: Tx, y: Tx) {
    (if x.tipCap + b <= x.feeCap then x.tipCap else x.feeCap - b) > (if y.tipCap + b <= y.feeCap then y.tipCap else y.feeCap - b)
  }

  /** a is worth less than b: for its tip, if there is a base fee, then for its fee cap, then
      for its tip cap. */
  ghost predicate Cheaper(baseFee: Option<nat>, a: Tx, b: Tx) {
    if baseFee.Some? && (TipsMore(baseFee.value, a, b) || TipsMore(baseFee.value, b, a)) then TipsMore(baseFee.value, b, a)
    else a.feeCap < b.feeCap || (a.feeCap == b.feeCap && a.tipCap < b.tipCap)
  }

  /** The comparison read on the fields. */
  lemma CmpMeans(baseFee: Option<nat>, a: Tx, b: Tx)
    ensures Cmp(baseFee, a, b) < 0 <==> Cheaper(baseFee, a, b)
    ensures Cmp(baseFee, a, b) > 0 <==> Cheaper(baseFee, b, a)
    ensures PriceLess(baseFee, a, b) <==> Cheaper(baseFee, a, b) || (!Cheaper(baseFee, b, a) && a.nonce > b.nonce)
  {}

  /** The effective tip is the most that the tip cap and, over the base fee, the fee cap allow. */
  lemma TipMeans(t: Tx, b: nat, x: int)
    ensures x <= t.EffectiveTip(Some(b)) <==> x <= t.tipCap && x + b <= t.feeCap
    ensures t.EffectiveTip(None) == t.tipCap
  {}

  /** What eviction has to do with prices: without a base fee nothing kept is worth less than
      what was dropped, nor, when worth the same, has a higher nonce; with one, nothing kept is
      beaten both in the tip over that fee and in the fee cap. */
  ghost predicate DropsCheapest(baseFee: Option<nat>, dropped: seq<Tx>, kept: set<Tx>) {
    forall d, s :: d in dropped && s in kept ==>
      if baseFee.None? then
        d.feeCap < s.feeCap || (d.feeCap == s.feeCap && (d.tipCap < s.tipCap || (d.tipCap == s.tipCap && d.nonce >= s.nonce)))
      else
        !(d.feeCap > s.feeCap && TipsMore(baseFee.value, d, s))
  }

  /** Total slots of a bag of transactions. */
  ghost function SlotsOf(m: multiset<Tx>): nat {
    if m == multiset{} then 0
    else var t :| t in m; t.NumSlots() + SlotsOf(m - multiset{t})
  }

  lemma {:induction false} SlotsOfPick(m: multiset<Tx>, x: Tx)
    requires x in m
    ensures SlotsOf(m) == x.NumSlots() + SlotsOf(m - multiset{x})
  {
    var t := SlotsOfSome(m);
    hide SlotsOf;
    if t != x {
      TakeBoth(m, t, x);
      SlotsOfPick(m - multiset{t}, x);
      SlotsOfPick(m - multiset{x}, t);
    }
  }

  lemma TakeBoth(m: multiset<Tx>, t: Tx, x: Tx)
    requires t in m && x in m && t != x
    ensures x in m - multiset{t} && t in m - multiset{x}
    ensures m - multiset{t} - multiset{x} == m - multiset{x} - multiset{t}
  {}

  lemma SlotsOfSome(m: multiset<Tx>) returns (t: Tx)
    requires m != multiset{}
    ensures t in m && SlotsOf(m) == t.NumSlots() + SlotsOf(m - multiset{t})
  {
    t :| t in m && SlotsOf(m) == t.NumSlots() + SlotsOf(m - multiset{t});
  }

  /** The entries of a heap that still name a remote transaction, with multiplicity. */
  ghost function Live(h: seq<Tx>, remotes: set<Tx>): multiset<Tx> {
    if h == [] then multiset{}
    else Live(h[..|h| - 1], remotes) + if h[|h| - 1] in remotes then multiset{h[|h| - 1]} else multiset{}
  }

  lemma {:induction false} LiveAt(h: seq<Tx>, remotes: set<Tx>, t: Tx)
    ensures Live(h, remotes)[t] == if t in remotes then multiset(h)[t] else 0
  {
    if h != [] {
      LiveAt(h[..|h| - 1], remotes, t);
      assert h == h[..|h| - 1] + [h[|h| - 1]];
    }
  }

  /** Live depends on the bag of entries only, and follows a push or pop. */
  lemma LiveStep(g: seq<Tx>, h: seq<Tx>, x: Tx, remotes: set<Tx>)
    requires multiset(h) == multiset(g) + multiset{x}
    ensures Live(h, remotes) == Live(g, remotes) + if x in remotes then multiset{x} else multiset{}
  {
    forall t ensures Live(h, remotes)[t] == (Live(g, remotes) + if x in remotes then multiset{x} else multiset{})[t] {
      LiveAt(h, remotes, t);
      LiveAt(g, remotes, t);
    }
  }

  /** No entry of `better` is worth strictly less, in urgent order, than one of `worse`. */
  ghost predicate Ranked(baseFee: Option<nat>, worse: seq<Tx>, better: seq<Tx>) {
    forall w, b :: w in worse && b in better ==> !PriceLess(baseFee, b, w)
  }

  lemma WorseFloats(baseFee: Option<nat>, worse: seq<Tx>, better: seq<Tx>)
    requires Ranked(baseFee, worse, better)
    ensures forall w, b :: w in worse && b in better ==> !Cheaper(baseFee, b, w)
  {
    hide PriceLess, Cheaper;
    forall w, b | w in worse && b in better ensures !Cheaper(baseFee, b, w) { CmpMeans(baseFee, b, w); }
  }

  /** Evicting d while keeping s was not a mistake in both orders at once. */
  ghost predicate FairEviction(baseFee: Option<nat>, dropped: seq<Tx>, kept: seq<Tx>) {
    forall d, s :: d in dropped && s in kept ==> !(PriceLess(baseFee, s, d) && PriceLess(None, s, d))
  }

  /** With no base fee the two orders agree and the evicted ones are simply the cheapest; with
      one, none of them beats a kept one in both respects. */
  lemma CheapestEvicted(baseFee: Option<nat>, dropped: seq<Tx>, kept: seq<Tx>)
    requires FairEviction(baseFee, dropped, kept)
    ensures baseFee.None? ==> forall d, s :: d in dropped && s in kept ==> !PriceLess(None, s, d) && Cmp(None, d, s) <= 0
    ensures DropsCheapest(baseFee, dropped, Members(kept))
  {
    hide Cmp;
    forall d, s | d in dropped && s in kept
      ensures !(PriceLess(baseFee, s, d) && PriceLess(None, s, d))
      ensures baseFee.None? ==> Cmp(None, d, s) <= 0 && (Cheaper(None, d, s) || (!Cheaper(None, s, d) && d.nonce >= s.nonce))
      ensures baseFee.Some? ==> !(d.feeCap > s.feeCap && TipsMore(baseFee.value, d, s))
    {
      CmpMeans(baseFee, s, d);
      CmpMeans(None, s, d);
      CmpMeans(None, d, s);
    }
  }

  /** Discard's bookkeeping: the live entries are split between the heaps and the drop list. */
  ghost predicate Accounted(remotes: set<Tx>, live: multiset<Tx>, u: seq<Tx>, f: seq<Tx>, drop: seq<Tx>, slots: int) {
    && Live(u, remotes) + Live(f, remotes) + multiset(drop) == live
    && (forall t :: t in drop ==> t in remotes)
    && (|drop| > 0 ==> SlotsOf(multiset(drop[..|drop| - 1])) < slots)
  }

  /** Discard's eviction order, from heaps as Reheap leaves them. */
  ghost predicate InOrder(baseFee: Option<nat>, u: seq<Tx>, f: seq<Tx>, drop: seq<Tx>) {
    Ranked(baseFee, f, u) && Ranked(baseFee, drop, u) && FairEviction(baseFee, drop, u) && FairEviction(baseFee, drop, f)
  }

  ghost predicate Within(a: seq<Tx>, b: seq<Tx>) { forall t :: t in a ==> t in b }

  /** Popping a stale entry off either heap. */
  lemma StaleStep(remotes: set<Tx>, live: multiset<Tx>, u: seq<Tx>, f: seq<Tx>, drop: seq<Tx>, slots: int,
                  u': seq<Tx>, f': seq<Tx>, t: Tx)
    requires Accounted(remotes, live, u, f, drop, slots) && t !in remotes
    requires || (multiset(u) == multiset(u') + multiset{t} && f == f')
             || (multiset(f) == multiset(f') + multiset{t} && u == u')
    ensures Accounted(remotes, live, u', f', drop, slots) && Within(u', u) && Within(f', f)
  {
    hide Live, SlotsOf;
    if u == u' { LiveStep(f', f, t, remotes); } else { LiveStep(u', u, t, remotes); }
    Heap.SubMultiset(u', u);
    Heap.SubMultiset(f', f);
  }

  lemma StaleOrder(baseFee: Option<nat>, u: seq<Tx>, f: seq<Tx>, drop: seq<Tx>, u': seq<Tx>, f': seq<Tx>)
    requires InOrder(baseFee, u, f, drop) && Within(u', u) && Within(f', f)
    ensures InOrder(baseFee, u', f', drop)
  {
    hide PriceLess;
  }

  /** Moving the least urgent live entry over to the floating heap. */
  lemma MoveStep(remotes: set<Tx>, live: multiset<Tx>, u: seq<Tx>, f: seq<Tx>, drop: seq<Tx>, slots: int,
                 u': seq<Tx>, f': seq<Tx>, t: Tx)
    requires Accounted(remotes, live, u, f, drop, slots) && t in remotes
    requires multiset(u) == multiset(u') + multiset{t} && multiset(f') == multiset(f) + multiset{t}
    ensures Accounted(remotes, live, u', f', drop, slots)
    ensures Within(u', u) && t in u && Within(f', f + [t])
  {
    hide Live, SlotsOf;
    LiveStep(u', u, t, remotes);
    LiveStep(f, f', t, remotes);
    Heap.SubMultiset(u', u);
    Heap.SubMultiset(f', f + [t]);
    assert t in multiset(u);
  }

  lemma MoveOrder(baseFee: Option<nat>, u: seq<Tx>, f: seq<Tx>, drop: seq<Tx>, u': seq<Tx>, f': seq<Tx>, t: Tx)
    requires InOrder(baseFee, u, f, drop) && Within(u', u) && t in u && Within(f', f + [t])
    requires forall y :: y in u ==> !PriceLess(baseFee, y, t)
    ensures InOrder(baseFee, u', f', drop)
  {
    hide PriceLess;
    forall w | w in f' ensures w in f || w == t { assert w in f + [t]; }
  }

  /** Dropping the cheapest live floating entry. */
  lemma DropStep(remotes: set<Tx>, live: multiset<Tx>, u: seq<Tx>, f: seq<Tx>, drop: seq<Tx>, slots: int,
                 f': seq<Tx>, t: Tx)
    requires Accounted(remotes, live, u, f, drop, slots) && t in remotes
    requires multiset(f) == multiset(f') + multiset{t} && slots > SlotsOf(multiset(drop))
    ensures Accounted(remotes, live, u, f', drop + [t], slots)
    ensures SlotsOf(multiset(drop + [t])) == SlotsOf(multiset(drop)) + t.NumSlots()
    ensures Within(f', f) && t in f
  {
    hide Live, SlotsOf;
    LiveStep(f', f, t, remotes);
    Heap.SubMultiset(f', f);
    assert t in multiset(f);
    SlotsSnoc(drop, t);
    assert (drop + [t])[..|drop|] == drop;
    MoveToDrop(Live(u, remotes), Live(f', remotes), drop, t);
  }

  lemma MoveToDrop(u: multiset<Tx>, f: multiset<Tx>, drop: seq<Tx>, t: Tx)
    ensures u + (f + multiset{t}) + multiset(drop) == u + f + multiset(drop + [t])
  {
    assert multiset(drop + [t]) == multiset(drop) + multiset{t};
  }

  lemma SlotsSnoc(drop: seq<Tx>, t: Tx)
    ensures SlotsOf(multiset(drop + [t])) == SlotsOf(multiset(drop)) + t.NumSlots()
  {
    SlotsOfPick(multiset(drop + [t]), t);
    assert multiset(drop + [t]) - multiset{t} == multiset(drop);
  }

  lemma DropOrder(baseFee: Option<nat>, u: seq<Tx>, f: seq<Tx>, drop: seq<Tx>, f': seq<Tx>, t: Tx)
    requires InOrder(baseFee, u, f, drop) && Within(f', f) && t in f
    requires forall y :: y in f ==> !PriceLess(None, y, t)
    ensures InOrder(baseFee, u, f', drop + [t])
  {
    hide PriceLess;
    forall w | w in drop + [t] ensures w in drop || w == t {}
  }

  lemma SlotsOfSub(a: multiset<Tx>, b: multiset<Tx>)
    requires a <= b
    ensures SlotsOf(a) <= SlotsOf(b)
    decreases |a|
  {
    if a != multiset{} {
      var t :| t in a;
      SlotsOfPick(a, t);
      SlotsOfPick(b, t);
      SlotsOfSub(a - multiset{t}, b - multiset{t});
    }
  }

  lemma DiscardDone(remotes: set<Tx>, live: multiset<Tx>, u: seq<Tx>, f: seq<Tx>, drop: seq<Tx>, slots: int)
    requires Accounted(remotes, live, u, f, drop, slots)
    ensures SlotsOf(multiset(drop)) <= SlotsOf(live)
    ensures |u| == |f| == 0 ==> multiset(drop) == live
  {
    SlotsOfSub(multiset(drop), live);
  }

  /** Handing the dropped entries back. */
  lemma RestoreStep(remotes: set<Tx>, live: multiset<Tx>, u: seq<Tx>, f: seq<Tx>, drop: seq<Tx>, u': seq<Tx>)
    requires |drop| > 0 && (forall t :: t in drop ==> t in remotes)
    requires Live(u, remotes) + Live(f, remotes) + multiset(drop) == live
    requires multiset(u') == multiset(u) + multiset{drop[0]}
    ensures Live(u', remotes) + Live(f, remotes) + multiset(drop[1..]) == live
    ensures forall t :: t in drop[1..] ==> t in remotes
  {
    LiveStep(u, u', drop[0], remotes);
    assert drop == [drop[0]] + drop[1..];
  }

  /** A remote transaction is live just when a heap holds it. */
  lemma LiveMember(u: seq<Tx>, f: seq<Tx>, remotes: set<Tx>, t: Tx)
    requires t in remotes
    ensures t in Live(u, remotes) + Live(f, remotes) <==> t in u || t in f
  {
    LiveAt(u, remotes, t);
    LiveAt(f, remotes, t);
    assert t in u <==> t in multiset(u);
    assert t in f <==> t in multiset(f);
  }

  /** On heaps that hold each remote transaction once, the live slots are the remote slots. */
  lemma LiveIsRemote(u: seq<Tx>, f: seq<Tx>, remotes: set<Tx>)
    requires forall t :: t in remotes ==> multiset(u)[t] + multiset(f)[t] == 1
    ensures Live(u, remotes) + Live(f, remotes) == multiset(remotes)
    ensures SlotsOf(Live(u, remotes) + Live(f, remotes)) == SlotSum(remotes)
  {
    forall t ensures (Live(u, remotes) + Live(f, remotes))[t] == multiset(remotes)[t] {
      LiveAt(u, remotes, t);
      LiveAt(f, remotes, t);
    }
    SlotsOfSet(remotes);
  }

  lemma {:induction false} SlotsOfSet(s: set<Tx>)
    ensures SlotsOf(multiset(s)) == SlotSum(s)
  {
    if s != {} {
      var t :| t in s;
      SlotsOfPick(multiset(s), t);
      SlotSumPick(s, t);
      assert multiset(s) - multiset{t} == multiset(s - {t});
      SlotsOfSet(s - {t});
    }
  }

  /** A part of the live entries, when each remote transaction has just one, weighs what its
      transactions weigh. */
  lemma DropsWeigh(remotes: set<Tx>, live: multiset<Tx>, drop: seq<Tx>)
    requires live == multiset(remotes) && multiset(drop) <= live
    ensures Members(drop) <= remotes && SlotsOf(multiset(drop)) == SlotSum(Members(drop))
  {
    forall t ensures multiset(drop)[t] == multiset(Members(drop))[t] {
      assert t in drop <==> t in multiset(drop);
      assert multiset(drop)[t] <= multiset(remotes)[t];
    }
    assert multiset(drop) == multiset(Members(drop));
    SlotsOfSet(Members(drop));
    forall t | t in Members(drop) ensures t in remotes { assert t in multiset(remotes); }
  }

  /** When every remote transaction has an entry, the live ones are just the remote ones, and
      they have at least their slots. */
  lemma LiveCovers(u: seq<Tx>, f: seq<Tx>, remotes: set<Tx>)
    requires remotes <= Entries(u, f)
    ensures forall t :: t in Live(u, remotes) + Live(f, remotes) <==> t in remotes
    ensures SlotSum(remotes) <= SlotsOf(Live(u, remotes) + Live(f, remotes))
  {
    var live := Live(u, remotes) + Live(f, remotes);
    forall t ensures live[t] == if t in remotes then multiset(u)[t] + multiset(f)[t] else 0 {
      LiveAt(u, remotes, t);
      LiveAt(f, remotes, t);
    }
    forall t | t in remotes ensures live[t] >= 1 {
      assert t in multiset(u) || t in multiset(f);
    }
    SlotsOfSet(remotes);
    assert multiset(remotes) <= live;
    SlotsOfPart(multiset(remotes), live);
  }

  lemma {:induction false} SlotsOfPart(a: multiset<Tx>, b: multiset<Tx>)
    requires a <= b
    ensures SlotsOf(a) <= SlotsOf(b)
    decreases |a|
  {
    if a != multiset{} {
      var t :| t in a;
      SlotsOfPick(a, t);
      SlotsOfPick(b, t);
      hide SlotsOf;
      SlotsOfPart(a - multiset{t}, b - multiset{t});
    }
  }

  /** tx is no better than any live entry of h, and h has one. */
  ghost predicate BelowAllLive(baseFee: Option<nat>, h: seq<Tx>, remotes: set<Tx>, tx: Tx) {
    && (exists t :: t in h && t in remotes)
    && (forall t :: t in h && t in remotes ==> !Cheaper(baseFee, t, tx))
  }

  ghost function Entries(u: seq<Tx>, f: seq<Tx>): set<Tx> { Members(u) + Members(f) }

  /** Every remote transaction that was not dropped is still in a heap. */
  lemma DropsAmong(baseFee: Option<nat>, dropped: seq<Tx>, remotes: set<Tx>, was: set<Tx>, kept: set<Tx>)
    requires remotes <= was && was * remotes <= kept + Members(dropped)
    ensures DropsCheapest(baseFee, dropped, kept) ==> DropsCheapest(baseFee, dropped, remotes - Members(dropped))
  {
    hide TipsMore;
    var some := remotes - Members(dropped);
    forall s | s in some ensures s in kept { assert s in was * remotes; }
    hide Members;
  }

  lemma MembersBoth(u: seq<Tx>, f: seq<Tx>)
    ensures Members(u + f) == Entries(u, f)
  {}

  lemma EntriesPush(was: seq<Tx>, u: seq<Tx>, f: seq<Tx>, x: Tx)
    requires multiset(u) == multiset(was) + multiset{x}
    ensures Entries(u, f) == Entries(was, f) + {x}
  {
    forall t ensures t in u <==> t in was || t == x { assert t in u <==> t in multiset(u); }
  }

  lemma EntriesOf(u: seq<Tx>, f: seq<Tx>, remotes: set<Tx>)
    requires multiset(u) + multiset(f) == multiset(remotes)
    ensures Entries(u, f) == remotes
  {
    forall t ensures t in u || t in f <==> t in remotes { assert t in multiset(u) + multiset(f) <==> t in multiset(remotes); }
  }

  /** No live entry is lost but the dropped ones. */
  lemma EntriesKept(remotes: set<Tx>, u: seq<Tx>, f: seq<Tx>, u': seq<Tx>, f': seq<Tx>, drop: seq<Tx>)
    requires Live(u', remotes) + Live(f', remotes) + multiset(drop) == Live(u, remotes) + Live(f, remotes)
    ensures Entries(u, f) * remotes <= Entries(u', f') + Members(drop)
  {
    forall t | t in Entries(u, f) * remotes ensures t in Entries(u', f') + Members(drop) {
      LiveMember(u, f, remotes, t);
      LiveMember(u', f', remotes, t);
      assert t in Live(u', remotes) + Live(f', remotes) + multiset(drop);
    }
  }

  /** A set's elements, in any order. */
  method Listing(s: set<Tx>) returns (r: seq<Tx>)
    ensures multiset(r) == multiset(s) && |r| == |s|
  {
    r := [];
    var todo := s;
    while todo != {}
      invariant todo <= s && multiset(r) == multiset(s - todo)
      decreases todo
    {
      var t :| t in todo;
      r := r + [t];
      todo := todo - {t};
      assert s - todo == (s - (todo + {t})) + {t};
    }
    assert s - todo == s;
    assert |multiset(r)| == |r|;
  }

  class TxPricedList {
    const all: TxLookup
    var stales: int
    var urgent: seq<Tx>
    var floating: seq<Tx>
    var baseFee: Option<nat>

    ghost predicate Valid() reads this {
      Heap.IsHeap(urgent, Less(baseFee)) && Heap.IsHeap(floating, Less(None))
    }

    /** Everything that has an entry in one of the heaps, live or stale. */
    ghost function Tracked(): set<Tx> reads this { Entries(urgent, floating) }

    /** The live entries, with multiplicity. */
    ghost function LiveBag(): multiset<Tx> reads this, all {
      Live(urgent, all.remotes) + Live(floating, all.remotes)
    }

    /** Something remote is live, and tx beats nothing live in either heap's order. */
    ghost predicate Outbid(tx: Tx) reads this, all {
      && (exists t :: t in all.remotes && (t in urgent || t in floating))
      && (forall t :: t in all.remotes && t in urgent ==> !Cheaper(baseFee, t, tx))
      && (forall t :: t in all.remotes && t in floating ==> !Cheaper(None, t, tx))
    }

    /** The heaps are as the last rebuild left them: no urgent entry is worth less than a floating
        one. */
    ghost predicate Sorted() reads this { Ranked(baseFee, floating, urgent) }

    /** Every remote transaction has one entry. */
    ghost predicate Single() reads this, all {
      forall t :: t in all.remotes ==> multiset(urgent)[t] + multiset(floating)[t] == 1
    }

    constructor (all: TxLookup)
      ensures Valid() && this.all == all && urgent == floating == [] && baseFee == None
    {
      this.all := all;
      stales, urgent, floating, baseFee := 0, [], [], None;
    }

    method Put(tx: Tx, local: bool)
      requires Valid()
      modifies this`urgent
      ensures Valid()
      ensures multiset(urgent) == old(multiset(urgent)) + if local then multiset{} else multiset{tx}
      ensures Tracked() == old(Tracked()) + if local then {} else {tx}
    {
      if local {
        return;
      }
      PriceOrder(baseFee);
      ghost var was := urgent;
      urgent := Heap.Push(urgent, Less(baseFee), tx);
      EntriesPush(was, urgent, floating, tx);
    }

    method Removed(count: nat)
      requires Valid()
      modifies this`stales, this`urgent, this`floating
      ensures Valid()
      ensures (urgent == old(urgent) && floating == old(floating)) || multiset(urgent) + multiset(floating) == multiset(all.remotes)
      ensures old(Tracked()) * all.remotes <= Tracked()
    {
      stales := stales + count;
      if stales <= (|urgent| + |floating|) / 4 {
        return;
      }
      Reheap();
      EntriesOf(urgent, floating, all.remotes);
    }

    /** Rebuilds both heaps from the remote set; the worse fifth, in urgent order, floats. */
    method Reheap()
      modifies this`stales, this`urgent, this`floating
      ensures Valid() && stales == 0
      ensures multiset(urgent) + multiset(floating) == multiset(all.remotes)
      ensures |floating| == |all.remotes| / 5 && Sorted()
      ensures forall w, b :: w in floating && b in urgent ==> !Cheaper(baseFee, b, w)
    {
      PriceOrder(baseFee);
      PriceOrder(None);
      stales, urgent := 0, [];
      urgent := Listing(all.remotes);
      urgent := Heap.Init(urgent, Less(baseFee));
      var floatingCount := |urgent| / 5;
      floating := [];
      while |floating| < floatingCount
        invariant Heap.IsHeap(urgent, Less(baseFee)) && stales == 0
        invariant |urgent| + |floating| == |all.remotes| && |floating| <= floatingCount == |all.remotes| / 5
        invariant multiset(urgent) + multiset(floating) == multiset(all.remotes)
        invariant Ranked(baseFee, floating, urgent)
      {
        ghost var was := urgent;
        var t;
        urgent, t := Heap.Pop(urgent, Less(baseFee));
        Heap.SubMultiset(urgent, was);
        floating := floating + [t];
      }
      ghost var was := floating;
      floating := Heap.Init(floating, Less(None));
      Heap.SubMultiset(floating, was);
      WorseFloats(baseFee, floating, urgent);
    }

    /** Whether tx is no better than everything live in the heap `urgentHeap` selects. */
    method UnderpricedFor(urgentHeap: bool, tx: Tx) returns (r: bool)
      requires Valid()
      modifies this`stales, this`urgent, this`floating
      ensures Valid()
      ensures if urgentHeap then floating == old(floating) else urgent == old(urgent)
      ensures forall t :: t in all.remotes ==> (t in urgent <==> t in old(urgent)) && (t in floating <==> t in old(floating))
      ensures LiveBag() == old(LiveBag())
      ensures Within(urgent, old(urgent)) && Within(floating, old(floating))
      ensures var h, fee := if urgentHeap then urgent else floating, if urgentHeap then baseFee else None;
        && (h != [] ==> h[0] in all.remotes)
        && r == BelowAllLive(fee, h, all.remotes, tx)
    {
      var fee := if urgentHeap then baseFee else None;
      var h := if urgentHeap then urgent else floating;
      ghost var first := h;
      PriceOrder(fee);
      hide Heap.StrictWeak, PriceLess, Live;
      while |h| > 0 && all.GetRemote(h[0]).None?
        invariant Heap.IsHeap(h, Less(fee)) && urgent == old(urgent) && floating == old(floating)
        invariant Live(h, all.remotes) == Live(first, all.remotes)
        invariant forall t :: t in all.remotes ==> (t in h <==> t in first)
        invariant Within(h, first)
        decreases |h|
      {
        ghost var was := h;
        stales := stales - 1;
        var t;
        h, t := Heap.Pop(h, Less(fee));
        Heap.SubMultiset(h, was);
        LiveStep(h, was, t, all.remotes);
        forall x | x in was && x !in h ensures x == t { assert x in multiset(was) && x !in multiset(h); }
      }
      if urgentHeap { urgent := h; } else { floating := h; }
      if |h| == 0 {
        return false;
      }
      Heap.HeadBelowAll(h, Less(fee));
      HeadDecides(fee, h, all.remotes, tx);
      r := Cmp(fee, h[0], tx) >= 0;
    }

    /** Underpriced: there is a live remote transaction, and tx beats none of them in either
        order a heap keeps. */
    method Underpriced(tx: Tx) returns (r: bool)
      requires Valid()
      modifies this`stales, this`urgent, this`floating
      ensures Valid()
      ensures forall t :: t in all.remotes ==> (t in urgent <==> t in old(urgent)) && (t in floating <==> t in old(floating))
      ensures Tracked() * all.remotes == old(Tracked()) * all.remotes
      ensures LiveBag() == old(LiveBag())
      ensures r <==> old(Outbid(tx))
      ensures r ==> forall t :: t in all.remotes && t in floating ==> t.feeCap > tx.feeCap || (t.feeCap == tx.feeCap && t.tipCap >= tx.tipCap)
      ensures r ==> forall t :: t in all.remotes && t in urgent ==>
        if baseFee.None? then t.feeCap > tx.feeCap || (t.feeCap == tx.feeCap && t.tipCap >= tx.tipCap) else !TipsMore(baseFee.value, tx, t)
      ensures old(Sorted()) ==> Sorted()
    {
      hide Heap.IsHeap, LiveBag, TipsMore, PriceLess;
      var u := UnderpricedFor(true, tx);
      if !u && |urgent| != 0 {
        assert urgent[0] in urgent;
        return false;
      }
      var f := UnderpricedFor(false, tx);
      if !f && |floating| != 0 {
        assert floating[0] in floating;
        return false;
      }
      assert |urgent| > 0 ==> urgent[0] in urgent;
      assert |floating| > 0 ==> floating[0] in floating;
      r := |urgent| != 0 || |floating| != 0;
    }

    method SetBaseFee(fee: Option<nat>)
      modifies this
      ensures Valid() && baseFee == fee
      ensures multiset(urgent) + multiset(floating) == multiset(all.remotes)
      ensures |floating| == |all.remotes| / 5 && Sorted()
      ensures forall w, b :: w in floating && b in urgent ==> !Cheaper(baseFee, b, w)
      ensures Tracked() == all.remotes
    {
      baseFee := fee;
      Reheap();
      EntriesOf(urgent, floating, all.remotes);
    }

    /** Makes room for `slots`: succeeds exactly when the live entries cover the request
        (or when forced), frees at least that much, and otherwise restores the live set. */
    method Discard(slots: int, force: bool) returns (drop: seq<Tx>, ok: bool)
      requires Valid()
      modifies this`stales, this`urgent, this`floating
      ensures Valid()
      ensures var live := old(LiveBag());
        && (ok <==> force || slots <= SlotsOf(live))
        && LiveBag() + multiset(drop) == live
        && (ok && slots <= SlotsOf(live) ==> SlotsOf(multiset(drop)) >= slots)
        && (ok && slots > SlotsOf(live) ==> multiset(drop) == live)
      ensures !ok ==> drop == []
      ensures |drop| > 0 ==> SlotsOf(multiset(drop[..|drop| - 1])) < slots
      ensures old(Sorted()) ==>
        && FairEviction(baseFee, drop, urgent + floating) && DropsCheapest(baseFee, drop, Tracked())
        && (baseFee.None? ==> forall d, s :: d in drop && s in urgent + floating ==> Cmp(None, d, s) <= 0)
      ensures forall t :: t in drop ==> t in all.remotes
      ensures old(Tracked()) * all.remotes <= Tracked() + Members(drop)
    {
      PriceOrder(baseFee);
      PriceOrder(None);
      hide Live, SlotsOf, PriceLess, Ranked, FairEviction, DropsCheapest, Cmp, Entries, Heap.IsHeap, Heap.StrictWeak;
      ghost var remotes := all.remotes;
      ghost var live := Live(urgent, remotes) + Live(floating, remotes);
      ghost var ranked := Ranked(baseFee, floating, urgent);
      drop := [];
      var left := slots;
      DiscardStart(baseFee, remotes, live, urgent, floating, slots);
      while left > 0
        invariant Valid() && left == slots - SlotsOf(multiset(drop))
        invariant Accounted(remotes, live, urgent, floating, drop, slots)
        invariant ranked ==> InOrder(baseFee, urgent, floating, drop)
        decreases 2 * |urgent| + |floating|
      {
        if |urgent| > 4 * |floating| {
          MoveOrStale(remotes, live, drop, slots, ranked);
        } else {
          if |floating| == 0 {
            break;
          }
          drop, left := DropOrStale(remotes, live, drop, left, slots, ranked);
        }
      }
      DiscardDone(remotes, live, urgent, floating, drop, slots);
      InOrderFair(baseFee, urgent, floating, drop, ranked);
      if left > 0 && !force {
        while |drop| > 0
          invariant Valid() && forall t :: t in drop ==> t in remotes
          invariant Live(urgent, remotes) + Live(floating, remotes) + multiset(drop) == live
        {
          ghost var was := urgent;
          urgent := Heap.Push(urgent, Less(baseFee), drop[0]);
          RestoreStep(remotes, live, was, floating, drop, urgent);
          drop := drop[1..];
        }
        InOrderFair(baseFee, urgent, floating, [], false);
        EntriesKept(remotes, old(urgent), old(floating), urgent, floating, []);
        return [], false;
      }
      EntriesKept(remotes, old(urgent), old(floating), urgent, floating, drop);
      return drop, true;
    }

    /** The urgent branch of Discard's loop. */
    method MoveOrStale(ghost remotes: set<Tx>, ghost live: multiset<Tx>, ghost drop: seq<Tx>, ghost slots: int, ghost ranked: bool)
      requires Valid() && remotes == all.remotes && |urgent| > 4 * |floating|
      requires Accounted(remotes, live, urgent, floating, drop, slots)
      requires ranked ==> InOrder(baseFee, urgent, floating, drop)
      modifies this`stales, this`urgent, this`floating
      ensures Valid() && |urgent| == old(|urgent|) - 1 && |floating| <= old(|floating|) + 1
      ensures Accounted(remotes, live, urgent, floating, drop, slots)
      ensures ranked ==> InOrder(baseFee, urgent, floating, drop)
    {
      PriceOrder(baseFee);
      PriceOrder(None);
      hide Live, SlotsOf, PriceLess, InOrder, Accounted, Heap.IsHeap, Heap.StrictWeak;
      ghost var wasU, wasF := urgent, floating;
      var t;
      urgent, t := Heap.Pop(urgent, Less(baseFee));
      if all.GetRemote(t).None? {
        StaleStep(remotes, live, wasU, wasF, drop, slots, urgent, floating, t);
        if ranked { StaleOrder(baseFee, wasU, wasF, drop, urgent, floating); }
        stales := stales - 1;
        return;
      }
      floating := Heap.Push(floating, Less(None), t);
      MoveStep(remotes, live, wasU, wasF, drop, slots, urgent, floating, t);
      forall y | y in wasU ensures !PriceLess(baseFee, y, t) { assert !Less(baseFee)(y, t); }
      if ranked { MoveOrder(baseFee, wasU, wasF, drop, urgent, floating, t); }
    }

    /** The floating branch of Discard's loop. */
    method DropOrStale(ghost remotes: set<Tx>, ghost live: multiset<Tx>, drop: seq<Tx>, left: int, ghost slots: int, ghost ranked: bool)
      returns (drop': seq<Tx>, left': int)
      requires Valid() && remotes == all.remotes && |floating| > 0
      requires left > 0 && left == slots - SlotsOf(multiset(drop))
      requires Accounted(remotes, live, urgent, floating, drop, slots)
      requires ranked ==> InOrder(baseFee, urgent, floating, drop)
      modifies this`stales, this`floating
      ensures Valid() && |floating| == old(|floating|) - 1
      ensures left' == slots - SlotsOf(multiset(drop'))
      ensures Accounted(remotes, live, urgent, floating, drop', slots)
      ensures ranked ==> InOrder(baseFee, urgent, floating, drop')
    {
      PriceOrder(None);
      hide Live, SlotsOf, PriceLess, InOrder, Accounted, Heap.IsHeap, Heap.StrictWeak;
      ghost var wasF := floating;
      var t;
      floating, t := Heap.Pop(floating, Less(None));
      if all.GetRemote(t).None? {
        StaleStep(remotes, live, urgent, wasF, drop, slots, urgent, floating, t);
        if ranked { StaleOrder(baseFee, urgent, wasF, drop, urgent, floating); }
        stales := stales - 1;
        return drop, left;
      }
      DropStep(remotes, live, urgent, wasF, drop, slots, floating, t);
      forall y | y in wasF ensures !PriceLess(None, y, t) { assert !Less(None)(y, t); }
      if ranked { DropOrder(baseFee, urgent, wasF, drop, floating, t); }
      return drop + [t], left - t.NumSlots();
    }
  }

  lemma HeadDecides(fee: Option<nat>, h: seq<Tx>, remotes: set<Tx>, tx: Tx)
    requires |h| > 0 && h[0] in remotes && forall t :: t in h ==> !Less(fee)(t, h[0])
    ensures Cmp(fee, h[0], tx) >= 0 <==> BelowAllLive(fee, h, remotes, tx)
  {
    assert h[0] in h;
    forall t | t in h ensures Cmp(fee, h[0], tx) >= 0 ==> Cmp(fee, t, tx) >= 0 {
      assert !Less(fee)(t, h[0]);
    }
    forall t ensures Cmp(fee, t, tx) < 0 <==> Cheaper(fee, t, tx) { CmpMeans(fee, t, tx); }
    hide Cmp, Cheaper;
  }

  lemma DiscardStart(baseFee: Option<nat>, remotes: set<Tx>, live: multiset<Tx>, u: seq<Tx>, f: seq<Tx>, slots: int)
    requires live == Live(u, remotes) + Live(f, remotes)
    ensures Accounted(remotes, live, u, f, [], slots) && SlotsOf(multiset([])) == 0
    ensures Ranked(baseFee, f, u) ==> InOrder(baseFee, u, f, [])
  {}

  lemma InOrderFair(baseFee: Option<nat>, u: seq<Tx>, f: seq<Tx>, drop: seq<Tx>, ranked: bool)
    requires ranked ==> InOrder(baseFee, u, f, drop)
    ensures ranked || drop == [] ==>
      && FairEviction(baseFee, drop, u + f) && DropsCheapest(baseFee, drop, Entries(u, f))
      && (baseFee.None? ==> forall d, s :: d in drop && s in u + f ==> Cmp(None, d, s) <= 0)
  {
    hide PriceLess, Cmp, DropsCheapest;
    if ranked || drop == [] {
      assert forall w :: w in u + f <==> w in u || w in f;
      CheapestEvicted(baseFee, drop, u + f);
      MembersBoth(u, f);
    }
  }
}
