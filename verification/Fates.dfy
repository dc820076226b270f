/** What becomes of each transaction when its account is promoted or demoted, read as money:
    the pool keeps pending what its senders can pay for. */
module Fates {
  import opened Transactions
  import opened TxLists
  import opened PoolSpec
  import opened PoolSteady

  /** The sender can pay for the gas at its highest price and for the value, and the gas fits
      into a block. */
  ghost predicate Affords(c: Chain, t: Tx) {
    t.gas <= c.maxGas && c.Balance(t.from) >= t.gas * t.feeCap + t.value
  }

  /** The list's own check. */
  lemma PayableMeans(c: Chain, t: Tx)
    ensures Payable(t, c.Balance(t.from), c.maxGas) <==> Affords(c, t)
  {
    assert t.feeCap * t.gas == t.gas * t.feeCap;
  }

  lemma AllPayable(c: Chain, m: Items, a: Address)
    requires Belongs(m, a)
    ensures forall n :: n in m ==> (Payable(m[n], c.Balance(a), c.maxGas) <==> Affords(c, m[n]))
  {
    forall n | n in m ensures Payable(m[n], c.Balance(a), c.maxGas) <==> Affords(c, m[n]) {
      PayableMeans(c, m[n]);
    }
  }

  // ----- demotion -----

  /** All of a's pending transactions from the chain nonce up to n are affordable, the one at
      the chain nonce being among them. */
  ghost predicate FrontAffords(p: Pool, a: Address, n: nat) {
    var pend, s := Of(p.pending, a), p.chain.Nonce(a);
    s in pend && s <= n && forall k :: k in pend && s <= k <= n ==> Affords(p.chain, pend[k])
  }

  /** Demotion drops a pending transaction just when it is mined or its sender cannot afford it,
      and keeps it pending just when nothing from the chain nonce up to it is missing at the
      front or unaffordable; the rest is queued. */
  lemma DemotionFates(p: Pool, a: Address, t: Tx)
    requires Inv(p) && Holds(Of(p.pending, a), t)
    ensures var q := DemoteAccount(p, a);
      && (t in q.known <==> t.nonce >= p.chain.Nonce(a) && Affords(p.chain, t))
      && (Holds(Of(q.pending, a), t) <==> FrontAffords(p, a, t.nonce))
      && (t in q.known ==> Holds(Of(q.pending, a), t) || Holds(Of(q.queue, a), t))
  {
    var q := DemoteAccount(p, a);
    PayableMeans(p.chain, t);
    AccountInv(p, a);
    DemoteInv(p, a);
    AccountInv(q, a);
    hide Inv, Affords, Payable, DemoteAccount, FrontAffords, Belongs;
    DemotedPending(p, a, t);
    DemotedKnown(p, a, t);
  }

  lemma DemotedPending(p: Pool, a: Address, t: Tx)
    requires Inv(p) && Holds(Of(p.pending, a), t)
    ensures Holds(Of(DemoteAccount(p, a).pending, a), t) <==> FrontAffords(p, a, t.nonce)
  {
    DemotedLists(p, a);
    AccountInv(p, a);
    FrontKept(p, a, t.nonce);
    KeptMeans(Unmined(p, a), p.chain.Balance(a), p.chain.maxGas, t.nonce);
    hide Inv, FrontAffords, Payable, DemoteAccount, Kept, Invalidated, Belongs;
  }

  lemma FrontKept(p: Pool, a: Address, n: uint64)
    requires Inv(p) && n in Of(p.pending, a)
    ensures var kept, s := Kept(Unmined(p, a), true, p.chain.Balance(a), p.chain.maxGas), p.chain.Nonce(a);
      FrontAffords(p, a, n) <==> s in kept && n in kept
  {
    AccountInv(p, a);
    AllPayable(p.chain, Of(p.pending, a), a);
    KeptMeans(Unmined(p, a), p.chain.Balance(a), p.chain.maxGas, n);
    KeptMeans(Unmined(p, a), p.chain.Balance(a), p.chain.maxGas, p.chain.Nonce(a));
    hide Inv, Affords, Payable, Kept, Belongs, Of;
  }

  lemma DemotedKnown(p: Pool, a: Address, t: Tx)
    requires Inv(p) && Holds(Of(p.pending, a), t)
    ensures t in DemoteAccount(p, a).known <==> t.nonce >= p.chain.Nonce(a) && Payable(t, p.chain.Balance(a), p.chain.maxGas)
  {
    AccountInv(p, a);
    hide Inv, Payable, Kept, Invalidated, TxsOf, Below, Unpayables, Payables, From, With, Belongs, Of;
    DropsOf(Of(p.pending, a), a, p.chain.Nonce(a), p.chain.Balance(a), p.chain.maxGas, t);
  }

  /** The two kinds of transactions that go. */
  lemma DropsOf(m: Items, a: Address, s: nat, balance: nat, maxGas: nat, t: Tx)
    requires Belongs(m, a) && Holds(m, t)
    ensures t.from == a && (t in TxsOf(Below(m, s)) <==> t.nonce < s)
    ensures t in TxsOf(Unpayables(From(m, s), balance, maxGas)) <==> t.nonce >= s && !Payable(t, balance, maxGas)
  {
    hide Payable;
    HoldsTxs(Below(m, s), a);
    HoldsTxs(Unpayables(From(m, s), balance, maxGas), a);
  }

  lemma KeptMeans(m: Items, balance: nat, maxGas: nat, n: uint64)
    ensures n in Kept(m, true, balance, maxGas) <==> n in m && forall k :: k in m && k <= n ==> Payable(m[k], balance, maxGas)
    ensures n in Kept(m, true, balance, maxGas) ==> Kept(m, true, balance, maxGas)[n] == m[n]
  {
    hide Payable;
    var bad := Unpayables(m, balance, maxGas);
    if bad != map[] { assert MinKey(bad) in bad; }
    if n in m && (forall k :: k in m && k <= n ==> Payable(m[k], balance, maxGas)) && bad != map[] { assert n < MinKey(bad); }
    if n in Kept(m, true, balance, maxGas) {
      forall k | k in m && k <= n ensures Payable(m[k], balance, maxGas) {
        assert !Payable(m[k], balance, maxGas) ==> k in bad;
      }
    }
  }

  // ----- promotion -----

  /** a has a queued transaction of nonce k that is neither mined nor unaffordable. */
  ghost predicate Ready(p: Pool, a: Address, k: uint64) {
    k in Of(p.queue, a) && k >= p.chain.Nonce(a) && Affords(p.chain, Of(p.queue, a)[k])
  }

  /** n is in the run that starts at a's first ready nonce, which is not above its virtual
      nonce. */
  ghost predicate InFirstRun(p: Pool, a: Address, n: uint64) {
    exists s: uint64 :: s <= VNonce(p, a) && RunsFrom(p, a, s, n)
  }

  ghost predicate RunsFrom(p: Pool, a: Address, s: uint64, n: uint64) {
    s <= n && (forall k: uint64 :: s <= k <= n ==> Ready(p, a, k)) && (forall k: uint64 :: Ready(p, a, k) ==> k >= s)
  }

  /** Promotion moves a queued transaction to the pending list just when it is in the first
      ready run; it drops what is mined or unaffordable, and of the rest only what exceeds a
      remote account's share of the queue, the highest nonces. */
  lemma PromotionFates(p: Pool, a: Address, accountQueue: nat, t: Tx)
    requires Inv(p) && Holds(Of(p.queue, a), t)
    ensures var q := PromoteAccount(p, a, accountQueue);
      && (Holds(Of(q.pending, a), t) <==> InFirstRun(p, a, t.nonce))
      && (t.nonce < p.chain.Nonce(a) || !Affords(p.chain, t) ==> t !in q.known)
      && (t.nonce >= p.chain.Nonce(a) && Affords(p.chain, t) && t !in q.known ==>
            a !in p.locals && |Of(q.queue, a)| == accountQueue && forall k :: k in Of(q.queue, a) ==> k < t.nonce)
      && (t in q.known ==> Holds(Of(q.pending, a), t) || Holds(Of(q.queue, a), t))
  {
    var q := PromoteAccount(p, a, accountQueue);
    AccountInv(p, a);
    PromoteInv(p, a, accountQueue);
    AccountInv(q, a);
    PayableMeans(p.chain, t);
    hide Inv, Affords, Payable, PromoteAccount, InFirstRun, Belongs;
    PromotedPendingHas(p, a, accountQueue, t);
    PromotedKnown(p, a, accountQueue, t);
    if a !in p.locals && t.nonce in Cut(From(Sound(p, a), RunOf(Sound(p, a), VNonce(p, a))), accountQueue) { LeftOut(p, a, accountQueue, t); }
  }

  /** A remote account's queue is within its share afterwards, and nothing pending is lost. */
  lemma PromotionBounds(p: Pool, a: Address, accountQueue: nat)
    requires Inv(p)
    ensures var q := PromoteAccount(p, a, accountQueue);
      && (a !in p.locals ==> |Of(q.queue, a)| <= accountQueue)
      && forall t :: Holds(Of(p.pending, a), t) ==> Holds(Of(q.pending, a), t) && t in q.known
  {
    var q := PromoteAccount(p, a, accountQueue);
    PromoteInv(p, a, accountQueue);
    AccountInv(p, a);
    AccountInv(q, a);
    PromotedQueue(p, a, accountQueue);
    PromotedPending(p, a, accountQueue);
    ReadyApart(p, a);
    hide Inv, PromoteAccount, Of, ReadyRun, Lowest, Belongs;
    LowestMeaning(From(Sound(p, a), RunOf(Sound(p, a), VNonce(p, a))), accountQueue);
    hide Sound;
  }

  lemma ReadyApart(p: Pool, a: Address)
    requires Inv(p)
    ensures ReadyRun(p, a).Keys !! Of(p.pending, a).Keys
  {
    SoundFacts(p, a);
    ReadyIsSound(p, a);
  }

  lemma SoundIsReady(p: Pool, a: Address)
    requires Inv(p)
    ensures forall k :: k in Sound(p, a) <==> Ready(p, a, k)
    ensures forall k :: k in Sound(p, a) ==> Sound(p, a)[k] == Of(p.queue, a)[k]
  {
    AccountInv(p, a);
    AllPayable(p.chain, Of(p.queue, a), a);
    hide Inv, Affords, Payable, Belongs, Of;
  }

  lemma RunMeans(p: Pool, a: Address, n: uint64)
    requires Inv(p)
    ensures n in ReadyRun(p, a) <==> InFirstRun(p, a, n)
  {
    var good, v := Sound(p, a), VNonce(p, a);
    SoundIsReady(p, a);
    hide Inv, Sound, Ready;
    if n in ReadyRun(p, a) {
      assert good != map[] && MinKey(good) <= v;
      assert RunsFrom(p, a, MinKey(good), n);
    }
    if InFirstRun(p, a, n) {
      var s: uint64 :| s <= v && RunsFrom(p, a, s, n);
      assert s in good && n in good;
      assert MinKey(good) == s;
    }
  }

  lemma PromotedPendingHas(p: Pool, a: Address, accountQueue: nat, t: Tx)
    requires Inv(p) && Holds(Of(p.queue, a), t)
    ensures Holds(Of(PromoteAccount(p, a, accountQueue).pending, a), t) <==> InFirstRun(p, a, t.nonce)
  {
    PromotedPending(p, a, accountQueue);
    RunMeans(p, a, t.nonce);
    AccountInv(p, a);
    SoundFacts(p, a);
    ReadyIsSound(p, a);
    hide Inv, PromoteAccount, InFirstRun, Belongs, RunOf, Sound;
  }

  /** What is dropped. */
  lemma PromotedKnown(p: Pool, a: Address, accountQueue: nat, t: Tx)
    requires Inv(p) && Holds(Of(p.queue, a), t)
    ensures var rest := From(Sound(p, a), RunOf(Sound(p, a), VNonce(p, a)));
      t in PromoteAccount(p, a, accountQueue).known <==>
        && t.nonce >= p.chain.Nonce(a) && Payable(t, p.chain.Balance(a), p.chain.maxGas)
        && (a in p.locals || t.nonce !in Cut(rest, accountQueue))
  {
    AccountInv(p, a);
    SoundFacts(p, a);
    hide Inv, Payable, TxsOf, Below, Unpayables, Payables, With, Belongs, Of, Lowest, Cut, RunOf;
    DropsOf(Of(p.queue, a), a, p.chain.Nonce(a), p.chain.Balance(a), p.chain.maxGas, t);
    CapsOf(Of(p.queue, a), From(Sound(p, a), RunOf(Sound(p, a), VNonce(p, a))), a, accountQueue, t);
    hide Sound;
  }

  lemma CapsOf(m: Items, rest: Items, a: Address, k: nat, t: Tx)
    requires Belongs(m, a) && Holds(m, t) && Part(rest, m)
    ensures t in TxsOf(Cut(rest, k)) <==> t.nonce in Cut(rest, k)
    ensures t !in TxsOf(map[])
  {
    HoldsTxs(Cut(rest, k), a);
  }

  /** What the cap takes is above the share that stays. */
  lemma LeftOut(p: Pool, a: Address, accountQueue: nat, t: Tx)
    requires Inv(p) && a !in p.locals
    requires t.nonce in Cut(From(Sound(p, a), RunOf(Sound(p, a), VNonce(p, a))), accountQueue)
    ensures var left := Of(PromoteAccount(p, a, accountQueue).queue, a);
      |left| == accountQueue && forall k :: k in left ==> k < t.nonce
  {
    PromotedQueue(p, a, accountQueue);
    var rest := From(Sound(p, a), RunOf(Sound(p, a), VNonce(p, a)));
    hide Inv, Sound, PromoteAccount, RunOf, Lowest, From;
    LowestMeaning(rest, accountQueue);
    if |rest| <= accountQueue { LowestAll(rest, accountQueue); }
  }

  // ----- whole resets -----

  /** Everything pending of a is unmined and affordable at the head. */
  ghost predicate AllAfford(p: Pool, a: Address) {
    forall n :: n in Of(p.pending, a) ==> n >= p.chain.Nonce(a) && Affords(p.chain, Of(p.pending, a)[n])
  }

  lemma DemotionAffords(p: Pool, a: Address)
    requires Inv(p)
    ensures AllAfford(DemoteAccount(p, a), a)
  {
    var q := DemoteAccount(p, a);
    DemotedLists(p, a);
    hide Inv, Affords, DemoteAccount, Invalidated, FrontAffords;
    forall n | n in Of(q.pending, a) ensures n >= p.chain.Nonce(a) && Affords(p.chain, Of(q.pending, a)[n]) {
      KeptMeans(Unmined(p, a), p.chain.Balance(a), p.chain.maxGas, n);
      hide Kept;
      var t := Of(p.pending, a)[n];
      assert Of(q.pending, a)[n] == t;
      AccountInv(p, a);
      DemotionFates(p, a, t);
      FrontLast(p, a, n);
    }
  }

  lemma FrontLast(p: Pool, a: Address, n: uint64)
    requires n in Of(p.pending, a) && FrontAffords(p, a, n)
    ensures n >= p.chain.Nonce(a) && Affords(p.chain, Of(p.pending, a)[n])
  {
    hide Affords;
  }

  lemma TrimPart(p: Pool, e: Edit, a: Address, c: Config)
    requires Inv(p) && Trims(e)
    ensures Part(Of(Apply(p, e, c).pending, a), Of(p.pending, a)) && Apply(p, e, c).chain == p.chain
  {
    hide Inv, TxsOf, Lowest, From, Delete;
    match e
    case Drop(tx) =>
      OfWith(p.pending, tx.from, Below(Of(p.pending, tx.from), tx.nonce), a);
      OfWith(p.pending, tx.from, Of(p.pending, tx.from), a);
    case Cap(b, k) =>
      LowestIn(Of(p.pending, b), k);
      OfWith(p.pending, b, Lowest(Of(p.pending, b), k), a);
  }

  lemma {:induction false} TrimsAfford(p: Pool, es: seq<Edit>, a: Address, c: Config)
    requires Inv(p) && AllTrim(es) && AllAfford(p, a)
    ensures AllAfford(Replay(p, es, c), a) && Replay(p, es, c).chain == p.chain
    decreases |es|
  {
    hide Inv, Apply, Affords;
    if es != [] {
      ApplyInv(p, es[0], c);
      TrimPart(p, es[0], a, c);
      TrimsAfford(Apply(p, es[0], c), es[1..], a, c);
    }
  }

  /** After any reset, truncation included, whatever is pending is unmined, and its sender can
      pay for each of it at the new head. */
  lemma ResetAffords(p: Pool, op: Op, a: Address, c: Config)
    requires Inv(p) && op.Reset? && Ordered(p, op, c)
    ensures AllAfford(Replay(p, Edits(op), c), a)
  {
    hide Inv, Replay, Affords, PromoteAccount, DemoteAccount, Distinct, Steady, Fronted, CutBack, VNonce, Of;
    var q := PromoteAccount(Refilled(p, op, c), a, c.accountQueue);
    var f := Renewed(p, op, c);
    ResetAlone(p, op, a, c);
    DemotionAffords(q, a);
    ChainKept(Refilled(p, op, c), a, c.accountQueue);
    ChainKept(q, a, c.accountQueue);
    assert AllAfford(f, a);
    ReplayAppend(p, ResetFront(op) + Promotions(op.promoted) + Demotions(op.demoted) + [SetAll], op.after, c);
    TrimsAfford(f, op.after, a, c);
  }

  lemma AllAffordAfter(p: Pool, op: Op, c: Config)
    requires Inv(p) && Ordered(p, op, c)
    ensures op.Reset? ==> forall a :: AllAfford(Replay(p, Edits(op), c), a)
  {
    hide AllAfford, Inv, Ordered, Replay, Edits;
    if op.Reset? {
      forall a ensures AllAfford(Replay(p, Edits(op), c), a) { ResetAffords(p, op, a, c); }
    }
  }
}
