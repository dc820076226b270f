/** The nonce discipline of the pool: an account's pending nonces run from the chain nonce up
    to its virtual nonce, without a gap. */
module PoolSteady {
  import opened Transactions
  import opened TxLists
  import opened PoolSpec

  /** Pending nonces are exactly [chain nonce, virtual nonce). */
  ghost predicate Steady(p: Pool, a: Address) {
    Interval(Of(p.pending, a), p.chain.Nonce(a), VNonce(p, a)) && p.chain.Nonce(a) <= VNonce(p, a)
  }

  /** Where the unbroken run of a's pending nonces from the chain nonce ends. */
  ghost function End(p: Pool, a: Address): nat { RunEnd(Of(p.pending, a), p.chain.Nonce(a)) }

  /** What holds of an account while a reset is under way: apart from already mined
      transactions, which demotion will drop, its pending list is one run from the chain
      nonce that stops before the last nonce there is, and the virtual nonce has not run
      ahead of it. */
  ghost predicate Settling(p: Pool, a: Address) {
    Interval(Unmined(p, a), p.chain.Nonce(a), End(p, a)) && VNonce(p, a) <= End(p, a) <= MAX_UINT64
  }

  /** The same after a reset has lowered a's nonce: the pending list is one run that starts
      above it, at s0, and the virtual nonce is the chain's. */
  ghost predicate Lifted(p: Pool, a: Address, s0: uint64) {
    && VNonce(p, a) == p.chain.Nonce(a) < s0
    && RunEnd(Of(p.pending, a), s0) <= MAX_UINT64 && Interval(Of(p.pending, a), s0, RunEnd(Of(p.pending, a), s0))
  }

  /** What promotion would move from a's queue to its pending list. */
  function ReadyRun(p: Pool, a: Address): Items { Below(Sound(p, a), RunOf(Sound(p, a), VNonce(p, a))) }

  /** ... including a transaction of the last nonce, whose successor wraps around to 0. */
  ghost predicate TakesLast(p: Pool, a: Address) { MAX_UINT64 in ReadyRun(p, a) }

  /** As far as a is concerned the two pools are the same. */
  ghost predicate SameAccount(p: Pool, q: Pool, a: Address) {
    && Of(p.pending, a) == Of(q.pending, a) && Of(p.queue, a) == Of(q.queue, a)
    && VNonce(p, a) == VNonce(q, a) && p.chain == q.chain && (a in p.locals <==> a in q.locals)
  }

  lemma SameMeans(p: Pool, q: Pool, a: Address)
    requires SameAccount(p, q, a)
    ensures Settling(p, a) <==> Settling(q, a)
    ensures Steady(p, a) <==> Steady(q, a)
    ensures TakesLast(p, a) <==> TakesLast(q, a)
    ensures Fronted(p, a) <==> Fronted(q, a)
  {}

  lemma RunEndIs(m: Items, n: nat, e: nat)
    requires n <= e <= MAX_UINT64 + 1 && (forall k: uint64 :: n <= k < e ==> k in m) && (e <= MAX_UINT64 ==> e !in m)
    ensures RunEnd(m, n) == e
  {}

  /** Steady is settling with nothing mined left and the virtual nonce at the run's end. */
  lemma SteadySettles(p: Pool, a: Address)
    ensures Steady(p, a) <==> Settling(p, a) && VNonce(p, a) == End(p, a) && Unmined(p, a) == Of(p.pending, a)
  {
    var pend, s := Of(p.pending, a), p.chain.Nonce(a);
    if Steady(p, a) {
      RunEndIs(pend, s, VNonce(p, a));
      assert Unmined(p, a) == pend;
    }
  }

  lemma EndOfInterval(p: Pool, a: Address, e: nat)
    requires p.chain.Nonce(a) <= e <= MAX_UINT64 + 1 && Interval(Unmined(p, a), p.chain.Nonce(a), e)
    ensures End(p, a) == e
  {
    var pend, s := Of(p.pending, a), p.chain.Nonce(a);
    forall k: uint64 | s <= k < e ensures k in pend { assert k in Unmined(p, a); }
    assert e <= MAX_UINT64 ==> (e in pend <==> e in Unmined(p, a));
    RunEndIs(pend, s, e);
  }

  /** Accounts an operation does not touch. */
  lemma Untouched(p: Pool, q: Pool, a: Address)
    requires Of(q.pending, a) == Of(p.pending, a) && VNonce(q, a) == VNonce(p, a) && q.chain == p.chain
    ensures Settling(p, a) <==> Settling(q, a)
    ensures Steady(p, a) <==> Steady(q, a)
  {}

  // ----- each edit -----

  /** Cutting a pending list at nonce n, with the virtual nonce lowered to n. */
  lemma CutSettling(p: Pool, q: Pool, a: Address, n: uint64)
    requires Settling(p, a) && q.chain == p.chain
    requires Of(q.pending, a) == Below(Of(p.pending, a), n)
    requires VNonce(q, a) == if VNonce(p, a) <= n then VNonce(p, a) else n
    ensures Settling(q, a)
    ensures Steady(p, a) && n in Of(p.pending, a) ==> Steady(q, a)
  {
    var s, e := p.chain.Nonce(a), End(p, a);
    var e' := if n <= s then s else if n <= e then n else e;
    forall k: uint64 ensures k in Unmined(q, a) <==> s <= k < e' {
      assert k in Unmined(p, a) <==> s <= k < e;
    }
    EndOfInterval(q, a, e');
  }

  lemma DropSettling(p: Pool, tx: Tx, a: Address)
    requires Inv(p) && Settling(p, a)
    ensures Settling(RemoveTx(p, tx), a)
    ensures Steady(p, a) ==> Steady(RemoveTx(p, tx), a)
  {
    hide Settling, Steady, Inv, Below, From, Delete, Belongs;
    var q := RemoveTx(p, tx);
    if tx !in p.known {
      return;
    }
    OfWith(p.pending, tx.from, Of(q.pending, tx.from), a);
    if tx.from == a && tx.nonce in Of(p.pending, a) {
      CutSettling(p, q, a, tx.nonce);
    } else {
      SamePending(p, q, tx, a);
      Untouched(p, q, a);
    }
  }

  lemma SamePending(p: Pool, q: Pool, tx: Tx, a: Address)
    requires tx in p.known && q == RemoveTx(p, tx) && (tx.from != a || tx.nonce !in Of(p.pending, a))
    ensures Of(q.pending, a) == Of(p.pending, a) && VNonce(q, a) == VNonce(p, a)
  {
    OfWith(p.pending, tx.from, if tx.nonce in Of(p.pending, tx.from) then Below(Of(p.pending, tx.from), tx.nonce) else Of(p.pending, tx.from), a);
  }

  lemma PutSettling(p: Pool, tx: Tx, priceBump: nat, a: Address)
    requires Settling(p, a)
    ensures Settling(Insert(p, tx, priceBump).0, a)
    ensures Steady(p, a) ==> Steady(Insert(p, tx, priceBump).0, a)
  {
    hide Replaces;
    var q := Insert(p, tx, priceBump).0;
    assert Of(q.pending, a).Keys == Of(p.pending, a).Keys;
    var s, e := p.chain.Nonce(a), End(p, a);
    forall k: uint64 ensures k in Unmined(q, a) <==> s <= k < e { assert k in Unmined(p, a) <==> s <= k < e; }
    EndOfInterval(q, a, e);
    forall k: uint64 ensures k in Of(q.pending, a) <==> k in Of(p.pending, a) {}
  }

  /** The run promotion takes starts exactly where the pending run ends. */
  lemma PromoteExtends(pend: Items, good: Items, s: uint64, v: uint64, e: nat, end: nat)
    requires Interval(From(pend, s), s, e) && s <= e && v <= e
    requires good.Keys !! pend.Keys && (forall n :: n in good ==> n >= s)
    requires good != map[] && MinKey(good) <= v && end == RunEnd(good, MinKey(good))
    ensures MinKey(good) == e == v && e < end
    ensures Interval(From(pend + Below(good, end), s), s, end)
    ensures Below(good, end) != map[] && MaxKey(Below(good, end)) == end - 1
  {
    var f := MinKey(good);
    assert f in pend <==> f in From(pend, s);
    assert f == e == v;
    assert f in Below(good, end);
    var m := From(pend + Below(good, end), s);
    forall k: uint64 ensures k in m <==> s <= k < end {
      assert k in From(pend, s) <==> s <= k < e;
      if e <= k < end { assert k in good && k in Below(good, end); }
      if k in Below(good, end) { assert e <= k; }
    }
    assert end - 1 in Below(good, end) by { var k: uint64 := end - 1; assert k in good; }
  }

  /** Promotion keeps an account settling, and steady if it was, unless it takes the last
      nonce; and then it does not. */
  lemma PromoteSettling(p: Pool, a: Address, accountQueue: nat)
    requires Inv(p) && Settling(p, a)
    ensures Settling(PromoteAccount(p, a, accountQueue), a) <==> !TakesLast(p, a)
    ensures Steady(p, a) ==> (Steady(PromoteAccount(p, a, accountQueue), a) <==> !TakesLast(p, a))
  {
    hide Inv, Lowest, TxsOf, Payables, Payable, Below, From;
    var q := PromoteAccount(p, a, accountQueue);
    SteadySettles(p, a);
    SteadySettles(q, a);
    SoundFacts(p, a);
    var good := Sound(p, a);
    var end := RunOf(good, VNonce(p, a));
    PromotedPending(p, a, accountQueue);
    if good == map[] || MinKey(good) > VNonce(p, a) {
      BelowZero(good);
      assert Of(p.pending, a) + map[] == Of(p.pending, a);
      Untouched(p, q, a);
      return;
    }
    PromoteExtends(Of(p.pending, a), good, p.chain.Nonce(a), VNonce(p, a), End(p, a), end);
    if TakesLast(p, a) {
      LastPending(q, a);
      return;
    }
    assert end - 1 != MAX_UINT64;
    EndOfInterval(q, a, end);
    if Steady(p, a) {
      ReadyIsSound(p, a);
      NothingMined(Of(p.pending, a), ReadyRun(p, a), p.chain.Nonce(a));
    }
  }

  lemma ReadyIsSound(p: Pool, a: Address)
    ensures forall n :: n in ReadyRun(p, a) ==> n in Sound(p, a)
  {}

  lemma PromotedPending(p: Pool, a: Address, accountQueue: nat)
    requires Inv(p)
    ensures var q := PromoteAccount(p, a, accountQueue);
      && q.chain == p.chain && Of(q.pending, a) == Of(p.pending, a) + ReadyRun(p, a)
      && VNonce(q, a) == if ReadyRun(p, a) == map[] then VNonce(p, a) else Next(MaxKey(ReadyRun(p, a)))
  {
    hide Inv, Lowest, TxsOf, Payables, Payable, Below;
    if a !in p.queue {
      NoneQueued(p, a);
      assert Of(p.pending, a) + map[] == Of(p.pending, a);
    } else {
      OfWith(p.pending, a, Of(p.pending, a) + ReadyRun(p, a), a);
    }
  }

  lemma NoneQueued(p: Pool, a: Address)
    requires a !in p.queue
    ensures Sound(p, a) == map[] && ReadyRun(p, a) == map[]
  {}

  lemma LastPending(p: Pool, a: Address)
    requires MAX_UINT64 in Of(p.pending, a)
    ensures !Settling(p, a)
  {
    var last: uint64 := MAX_UINT64;
    assert last in Unmined(p, a);
  }

  lemma BelowZero(m: Items)
    ensures Below(m, 0) == map[]
  {}

  lemma NothingMined(pend: Items, ready: Items, s: nat)
    requires From(pend, s) == pend && forall n :: n in ready ==> n >= s
    ensures From(pend + ready, s) == pend + ready
  {
    forall n | n in pend ensures n >= s { assert n in From(pend, s); }
  }

  lemma SoundFacts(p: Pool, a: Address)
    requires Inv(p)
    ensures Sound(p, a).Keys !! Of(p.pending, a).Keys
    ensures forall n :: n in Sound(p, a) ==> n >= p.chain.Nonce(a) && n in Of(p.queue, a) && Sound(p, a)[n] == Of(p.queue, a)[n]
  {
    AccountInv(p, a);
  }

  // ----- demotion and the fresh nonces -----

  ghost predicate FromTo(m: Items, s: nat) { exists e: nat :: s <= e <= MAX_UINT64 + 1 && Interval(m, s, e) }

  lemma IsFromTo(m: Items, s: nat, e: nat)
    requires s <= e <= MAX_UINT64 + 1 && Interval(m, s, e)
    ensures FromTo(m, s)
  {}

  /** The pending list is one run from the chain nonce, short of the last nonce. */
  ghost predicate Fronted(p: Pool, a: Address) { FromTo(Of(p.pending, a), p.chain.Nonce(a)) && MAX_UINT64 !in Of(p.pending, a) }

  lemma DemoteFronts(p: Pool, a: Address)
    requires Inv(p) && Settling(p, a)
    ensures Fronted(DemoteAccount(p, a), a)
  {
    hide Inv, TxsOf, Unpayables, Invalidated, Payable;
    var q, s := DemoteAccount(p, a), p.chain.Nonce(a);
    if a !in p.pending {
      IsFromTo(map[], s, s);
      return;
    }
    var live, bad := Unmined(p, a), Unpayables(Unmined(p, a), p.chain.Balance(a), p.chain.maxGas);
    var kept := Kept(live, true, p.chain.Balance(a), p.chain.maxGas);
    FilterContiguous(live, s, End(p, a), p.chain.Balance(a), p.chain.maxGas);
    MinInPart(live, p.chain.Balance(a), p.chain.maxGas);
    var e := if bad == map[] then End(p, a) else MinKey(bad);
    assert Interval(kept, s, e);
    hide Kept;
    OfWith(p.pending, a, kept, a);
    OfWith(p.pending, a, map[], a);
    if kept == map[] {
      IsFromTo(map[], s, s);
    } else {
      var n :| n in kept;
      assert s in kept;
      IsFromTo(kept, s, e);
    }
  }

  lemma MinInPart(m: Items, costLimit: nat, gasLimit: nat)
    ensures var bad := Unpayables(m, costLimit, gasLimit); bad != map[] ==> MinKey(bad) in m
  {}

  /** Taking the virtual nonces from the last pending transactions makes an account steady
      just when its list is fronted. */
  lemma RenonceExact(p: Pool, a: Address)
    requires Inv(p)
    ensures Steady(Renonce(p), a) <==> Fronted(p, a)
  {
    var q, pend, s := Renonce(p), Of(p.pending, a), p.chain.Nonce(a);
    if Steady(q, a) {
      IsFromTo(pend, s, VNonce(q, a));
    }
    if Fronted(p, a) {
      var e: nat :| s <= e <= MAX_UINT64 + 1 && Interval(pend, s, e);
      if pend == map[] {
        assert a !in p.pending;
        assert s < e <==> s in pend;
      } else {
        LastOfInterval(pend, s, e);
      }
    }
  }

  lemma LastOfInterval(m: Items, s: nat, e: nat)
    requires m != map[] && s <= e <= MAX_UINT64 + 1 && Interval(m, s, e) && MAX_UINT64 !in m
    ensures Next(MaxKey(m)) == e == MaxKey(m) + 1
  {
    var x := MaxKey(m);
    var k: uint64 := x + 1;
    assert k < e <==> k in m;
  }

  lemma CapSettling(p: Pool, b: Address, k: nat, a: Address)
    requires Settling(p, a)
    ensures Settling(CapAccount(p, b, k), a)
    ensures Steady(p, a) ==> Steady(CapAccount(p, b, k), a)
  {
    hide Settling, Steady, TxsOf, Below, Lowest;
    var q := CapAccount(p, b, k);
    var pend := Of(p.pending, b);
    if Cut(pend, k) == map[] {
      return;
    }
    OfWith(p.pending, b, Lowest(pend, k), a);
    if b != a {
      Untouched(p, q, a);
    } else {
      CutIsBelow(pend, k);
      CutSettling(p, q, a, MinKey(Cut(pend, k)));
    }
  }

  lemma CutIsBelow(m: Items, k: nat)
    requires Cut(m, k) != map[]
    ensures Lowest(m, k) == Below(m, MinKey(Cut(m, k))) && MinKey(Cut(m, k)) in m
  {
    LowestMeaning(m, k);
    assert Part(Lowest(m, k), m);
    SplitAt(m, Lowest(m, k), Cut(m, k));
  }

  lemma SplitAt(m: Items, low: Items, high: Items)
    requires Part(low, m) && high != map[] && (forall n :: n in high <==> n in m && n !in low)
    requires forall i, j :: i in low && j in m && j !in low ==> i < j
    ensures low == Below(m, MinKey(high)) && MinKey(high) in m
  {
    var n := MinKey(high);
    forall i | i in m ensures i in low <==> i < n {}
  }

  // ----- what other accounts do -----

  lemma PromoteOther(p: Pool, b: Address, accountQueue: nat, a: Address)
    requires a != b
    ensures SameAccount(p, PromoteAccount(p, b, accountQueue), a)
  {
    hide Sound, Below, From, Lowest, Cut, TxsOf, Unpayables, RunOf;
  }

  lemma DemoteOther(p: Pool, b: Address, a: Address)
    requires a != b
    ensures SameAccount(p, DemoteAccount(p, b), a)
  {
    hide Kept, Invalidated, Below, From, TxsOf, Unpayables;
  }

  /** Promoting or demoting an account depends on nothing but the account. */
  lemma PromoteSame(p: Pool, q: Pool, a: Address, accountQueue: nat)
    requires Inv(p) && Inv(q) && SameAccount(p, q, a)
    ensures SameAccount(PromoteAccount(p, a, accountQueue), PromoteAccount(q, a, accountQueue), a)
  {
    PromotedPending(p, a, accountQueue);
    PromotedPending(q, a, accountQueue);
    PromotedQueue(p, a, accountQueue);
    PromotedQueue(q, a, accountQueue);
    hide Inv, PromoteAccount, Of, Below, Lowest, Payables;
    assert Sound(p, a) == Sound(q, a);
    hide Sound, VNonce;
    assert ReadyRun(p, a) == ReadyRun(q, a) && LeftQueued(p, a, accountQueue) == LeftQueued(q, a, accountQueue);
  }

  function LeftQueued(p: Pool, a: Address, accountQueue: nat): Items {
    var rest := From(Sound(p, a), RunOf(Sound(p, a), VNonce(p, a)));
    if a in p.locals then rest else Lowest(rest, accountQueue)
  }

  lemma PromotedQueue(p: Pool, a: Address, accountQueue: nat)
    requires Inv(p)
    ensures var q := PromoteAccount(p, a, accountQueue);
      Of(q.queue, a) == LeftQueued(p, a, accountQueue) && (a in q.locals <==> a in p.locals)
  {
    if a !in p.queue {
      NoneQueued(p, a);
      assert LeftQueued(p, a, accountQueue) == map[];
    } else {
      hide Inv, Lowest, TxsOf, Payables, Payable, Below, From, Sound;
      OfWith(p.queue, a, LeftQueued(p, a, accountQueue), a);
    }
  }

  lemma DemoteSame(p: Pool, q: Pool, a: Address)
    requires Inv(p) && Inv(q) && SameAccount(p, q, a)
    ensures SameAccount(DemoteAccount(p, a), DemoteAccount(q, a), a)
  {
    DemotedLists(p, a);
    DemotedLists(q, a);
    hide Inv, DemoteAccount, VNonce, Kept, Invalidated, Of, From;
    assert Unmined(p, a) == Unmined(q, a);
    hide Unmined;
    assert LeftPending(p, a) == LeftPending(q, a);
    hide LeftPending;
  }

  /** The two lists demotion leaves. */
  function LeftPending(p: Pool, a: Address): (Items, Items) {
    var live := Unmined(p, a);
    var kept := Kept(live, true, p.chain.Balance(a), p.chain.maxGas);
    var back := Invalidated(live, true, p.chain.Balance(a), p.chain.maxGas);
    if kept != map[] && p.chain.Nonce(a) !in kept then (map[], Of(p.queue, a) + (back + kept)) else (kept, Of(p.queue, a) + (back + map[]))
  }

  lemma DemotedLists(p: Pool, a: Address)
    requires Inv(p)
    ensures var q := DemoteAccount(p, a);
      && (Of(q.pending, a), Of(q.queue, a)) == LeftPending(p, a)
      && VNonce(q, a) == VNonce(p, a) && q.chain == p.chain && q.locals == p.locals
  {
    if a !in p.pending {
      assert Of(p.pending, a) == map[] && Unmined(p, a) == map[];
      assert Kept(map[], true, p.chain.Balance(a), p.chain.maxGas) == map[] && Invalidated(map[], true, p.chain.Balance(a), p.chain.maxGas) == map[];
      assert Of(p.queue, a) + (map[] + map[]) == Of(p.queue, a);
    } else {
      hide Inv, TxsOf, Kept, Invalidated, Below, From, Unpayables;
      OfWith(p.pending, a, LeftPending(p, a).0, a);
      OfWith(p.queue, a, LeftPending(p, a).1, a);
    }
  }

  ghost predicate Distinct(accounts: seq<Address>) { forall i, j :: 0 <= i < j < |accounts| ==> accounts[i] != accounts[j] }

  lemma DistinctTail(accounts: seq<Address>)
    requires Distinct(accounts) && accounts != []
    ensures Distinct(accounts[1..]) && accounts[0] !in accounts[1..]
    ensures Promotions(accounts) == [Promote(accounts[0])] + Promotions(accounts[1..])
    ensures Demotions(accounts) == [Demote(accounts[0])] + Demotions(accounts[1..])
  {}

  /** Promoting a list of accounts, each named once, promotes each of them once. */
  lemma {:induction false} PromotionsOnce(p: Pool, accounts: seq<Address>, a: Address, c: Config)
    requires Inv(p) && Distinct(accounts)
    ensures SameAccount(if a in accounts then PromoteAccount(p, a, c.accountQueue) else p, Replay(p, Promotions(accounts), c), a)
    decreases |accounts|
  {
    hide Inv, PromoteAccount, Distinct;
    if accounts == [] {
      assert Promotions(accounts) == [];
      return;
    }
    var b := accounts[0];
    DistinctTail(accounts);
    PromoteInv(p, b, c.accountQueue);
    var q := PromoteAccount(p, b, c.accountQueue);
    PromotionsOnce(q, accounts[1..], a, c);
    if a != b {
      PromoteOther(p, b, c.accountQueue, a);
      PromoteInv(p, a, c.accountQueue);
      PromoteSame(p, q, a, c.accountQueue);
    }
  }

  lemma {:induction false} DemotionsOnce(p: Pool, accounts: seq<Address>, a: Address, c: Config)
    requires Inv(p) && Distinct(accounts)
    ensures SameAccount(if a in accounts then DemoteAccount(p, a) else p, Replay(p, Demotions(accounts), c), a)
    decreases |accounts|
  {
    hide Inv, DemoteAccount, Distinct;
    if accounts == [] {
      assert Demotions(accounts) == [];
      return;
    }
    var b := accounts[0];
    DistinctTail(accounts);
    DemoteInv(p, b);
    var q := DemoteAccount(p, b);
    DemotionsOnce(q, accounts[1..], a, c);
    if a != b {
      DemoteOther(p, b, a);
      DemoteInv(p, a);
      DemoteSame(p, q, a);
    }
  }

  // ----- critical sections -----

  /** One critical section of the pool: a batch of edits, or a whole reset. In a reset the
      head may stay (when it was skipped); transactions of the old chain are re-injected;
      the queued accounts are promoted and the pending ones demoted, each list in any order;
      the virtual nonces are renewed, and what exceeds the limits is dropped. */
  datatype Op =
    | Batch(edits: seq<Edit>)
    | Reset(head: Option<Chain>, inject: seq<Edit>, promoted: seq<Address>, demoted: seq<Address>, after: seq<Edit>)

  function HeadEdits(head: Option<Chain>): seq<Edit> { if head.Some? then [NewHead(head.value)] else [] }

  function ResetFront(op: Op): seq<Edit>
    requires op.Reset?
  {
    HeadEdits(op.head) + op.inject
  }

  function Edits(op: Op): seq<Edit> {
    match op
    case Batch(edits) => edits
    case Reset(_, _, promoted, demoted, after) => ResetFront(op) + Promotions(promoted) + Demotions(demoted) + [SetAll] + after
  }

  /** The edits of every operation but a reset; those of re-injection; those of truncation. */
  predicate Quiet(e: Edit) { e.Drop? || e.Put? || e.Promote? || e.Cap? || e.MarkLocal? }

  predicate Injects(e: Edit) { e.Drop? || e.Put? || e.MarkLocal? }

  predicate Trims(e: Edit) { e.Drop? || e.Cap? }

  ghost predicate AllQuiet(es: seq<Edit>) { forall e :: e in es ==> Quiet(e) }

  ghost predicate AllInject(es: seq<Edit>) { forall e :: e in es ==> Injects(e) }

  ghost predicate AllTrim(es: seq<Edit>) { forall e :: e in es ==> Trims(e) }

  /** The pool in the course of a reset: with the new head and the re-injected transactions,
      and once the virtual nonces have been renewed. */
  function Refilled(p: Pool, op: Op, c: Config): Pool
    requires Inv(p) && op.Reset?
  {
    Replay(p, ResetFront(op), c)
  }

  function Renewed(p: Pool, op: Op, c: Config): Pool
    requires Inv(p) && op.Reset?
  {
    Replay(p, ResetFront(op) + Promotions(op.promoted) + Demotions(op.demoted) + [SetAll], c)
  }

  /** The shape of an operation: in a reset every queued account is promoted once and every
      pending one demoted once. */
  ghost predicate Ordered(p: Pool, op: Op, c: Config)
    requires Inv(p)
  {
    match op
    case Batch(edits) => AllQuiet(edits)
    case Reset(head, inject, promoted, demoted, after) =>
      && AllInject(inject) && AllTrim(after) && Distinct(promoted) && Distinct(demoted)
      && (forall a :: a in Refilled(p, op, c).queue ==> a in promoted)
      && (forall a :: a in Replay(p, ResetFront(op) + Promotions(promoted), c).pending ==> a in demoted)
  }

  /** Up to the renewed nonces, a reset does to account a what promoting and demoting it alone
      would. */
  lemma ResetAlone(p: Pool, op: Op, a: Address, c: Config)
    requires Inv(p) && op.Reset? && Ordered(p, op, c)
    ensures var q := Refilled(p, op, c);
      && Inv(PromoteAccount(q, a, c.accountQueue)) && Inv(DemoteAccount(PromoteAccount(q, a, c.accountQueue), a))
      && (Steady(Renewed(p, op, c), a) <==> Fronted(DemoteAccount(PromoteAccount(q, a, c.accountQueue), a), a))
      && Renewed(p, op, c).chain == q.chain
      && Of(Renewed(p, op, c).pending, a) == Of(DemoteAccount(PromoteAccount(q, a, c.accountQueue), a).pending, a)
    ensures var f := Renewed(p, op, c);
      if MAX_UINT64 in Of(f.pending, a) then VNonce(f, a) == 0 else CutBack(Of(f.pending, a), VNonce(f, a), f, a)
  {
    hide VNonce, Inv, PromoteAccount, DemoteAccount, Replay, Distinct, AllInject, AllTrim, Steady, Fronted, CutBack;
    var front, ups, downs := ResetFront(op), Promotions(op.promoted), Demotions(op.demoted);
    var q := Refilled(p, op, c);
    ReplayAppend(p, front, ups, c);
    ReplayAppend(p, front + ups, downs, c);
    var q1, q2 := Replay(q, ups, c), Replay(p, front + ups + downs, c);
    PromotionsOnce(q, op.promoted, a, c);
    PromoteInv(q, a, c.accountQueue);
    if a !in op.promoted { NotQueued(q, a, c.accountQueue); }
    var q1' := PromoteAccount(q, a, c.accountQueue);
    DemotionsOnce(q1, op.demoted, a, c);
    DemoteInv(q1, a);
    DemoteInv(q1', a);
    ChainKept(q, a, c.accountQueue);
    ChainKept(q1', a, c.accountQueue);
    DemoteSame(q1', q1, a);
    if a !in op.demoted { NotPending(q1, a); }
    SameMeans(DemoteAccount(q1', a), q2, a);
    ReplaySnoc(p, front + ups + downs, SetAll, c);
    RenonceIs(q2, c);
    RenonceExact(q2, a);
    RenewedNonce(q2, a);
  }

  lemma NotQueued(p: Pool, a: Address, accountQueue: nat)
    requires a !in p.queue
    ensures PromoteAccount(p, a, accountQueue) == p
  {}

  lemma ChainKept(p: Pool, a: Address, accountQueue: nat)
    ensures PromoteAccount(p, a, accountQueue).chain == p.chain && DemoteAccount(p, a).chain == p.chain
  {}

  lemma NotPending(p: Pool, a: Address)
    requires a !in p.pending
    ensures DemoteAccount(p, a) == p
  {}

  lemma RenonceIs(p: Pool, c: Config)
    requires Inv(p)
    ensures (forall a :: a in p.pending ==> p.pending[a] != map[]) && Apply(p, SetAll, c) == Renonce(p)
    ensures Renonce(p).chain == p.chain && Renonce(p).pending == p.pending
  {}

  // ----- the head and the re-injected transactions -----

  ghost predicate Lowers(p: Pool, op: Op, a: Address) { op.Reset? && op.head.Some? && op.head.value.Nonce(a) < p.chain.Nonce(a) }

  lemma HeadMoves(p: Pool, head: Option<Chain>, a: Address, c: Config)
    requires Inv(p) && Steady(p, a)
    ensures var q := Replay(p, HeadEdits(head), c);
      && q.chain == (if head.Some? then head.value else p.chain)
      && (if head.Some? && head.value.Nonce(a) < p.chain.Nonce(a) then Lifted(q, a, p.chain.Nonce(a)) else Settling(q, a))
  {
    SteadySettles(p, a);
    if head.None? {
      return;
    }
    ReplayOne(p, NewHead(head.value), c);
    hide Inv;
    var q, s0, v := p.(chain := head.value, nonces := map[]), p.chain.Nonce(a), VNonce(p, a);
    if head.value.Nonce(a) < s0 {
      RunEndIs(Of(p.pending, a), s0, v);
    } else {
      EndOfInterval(q, a, if v < head.value.Nonce(a) then head.value.Nonce(a) else v);
    }
  }

  lemma DropLifted(p: Pool, tx: Tx, a: Address, s0: uint64)
    requires Inv(p) && Lifted(p, a, s0)
    ensures Lifted(RemoveTx(p, tx), a, s0)
  {
    hide Inv, From, Delete, Belongs;
    var q := RemoveTx(p, tx);
    if tx !in p.known {
      return;
    }
    var pend, n := Of(p.pending, a), tx.nonce;
    if tx.from == a && n in pend {
      OfWith(p.pending, a, Below(pend, n), a);
      forall k: uint64 ensures k in Below(pend, n) <==> s0 <= k < n { assert k in pend <==> s0 <= k < RunEnd(pend, s0); }
      assert s0 <= n;
      RunEndIs(Below(pend, n), s0, n);
    } else {
      SamePending(p, q, tx, a);
    }
  }

  lemma PutLifted(p: Pool, tx: Tx, priceBump: nat, a: Address, s0: uint64)
    requires Lifted(p, a, s0)
    ensures Lifted(Insert(p, tx, priceBump).0, a, s0)
  {
    hide Replaces;
    var q := Insert(p, tx, priceBump).0;
    var pend, pend', e := Of(p.pending, a), Of(q.pending, a), RunEnd(Of(p.pending, a), s0);
    forall k: uint64 ensures k in pend' <==> s0 <= k < e { assert k in pend <==> s0 <= k < e; }
    RunEndIs(pend', s0, e);
  }

  /** Re-injection keeps an account settling, or lifted. */
  lemma {:induction false} Injected(p: Pool, es: seq<Edit>, a: Address, s0: uint64, c: Config)
    requires Inv(p) && AllInject(es)
    ensures Replay(p, es, c).chain == p.chain
    ensures Settling(p, a) ==> Settling(Replay(p, es, c), a)
    ensures Lifted(p, a, s0) ==> Lifted(Replay(p, es, c), a, s0)
    decreases |es|
  {
    hide Settling, Lifted, Inv, RemoveTx, Insert;
    if es == [] {
      return;
    }
    ApplyInv(p, es[0], c);
    InjectStep(p, es[0], a, s0, c);
    Injected(Apply(p, es[0], c), es[1..], a, s0, c);
  }

  lemma InjectStep(p: Pool, e: Edit, a: Address, s0: uint64, c: Config)
    requires Inv(p) && Injects(e)
    ensures Apply(p, e, c).chain == p.chain
    ensures Settling(p, a) ==> Settling(Apply(p, e, c), a)
    ensures Lifted(p, a, s0) ==> Lifted(Apply(p, e, c), a, s0)
  {
    SameChain(p, e, c);
    hide Settling, Lifted, Inv, RemoveTx, Insert;
    match e
    case Drop(tx) =>
      if Settling(p, a) { DropSettling(p, tx, a); }
      if Lifted(p, a, s0) { DropLifted(p, tx, a, s0); }
    case Put(tx) =>
      if tx in p.known {
        return;
      }
      if Settling(p, a) { PutSettling(p, tx, c.priceBump, a); }
      if Lifted(p, a, s0) { PutLifted(p, tx, c.priceBump, a, s0); }
    case MarkLocal(b) =>
      Untouched(p, Apply(p, e, c), a);
      LiftedFrame(p, Apply(p, e, c), a, s0);
  }

  lemma SameChain(p: Pool, e: Edit, c: Config)
    requires Inv(p) && (Quiet(e) || Trims(e) || Injects(e))
    ensures Apply(p, e, c).chain == p.chain
  {
    hide Inv, Of, With, Lowest, Cut, Replaces, TxsOf, Sound, RunOf;
  }

  lemma LiftedFrame(p: Pool, q: Pool, a: Address, s0: uint64)
    requires Of(q.pending, a) == Of(p.pending, a) && VNonce(q, a) == VNonce(p, a) && q.chain == p.chain
    ensures Lifted(p, a, s0) ==> Lifted(q, a, s0)
  {}

  // ----- resets that lower a nonce -----

  /** Once the transactions are re-injected, a's pending list will end up without a gap
      unless a queued run that starts at the new nonce is promoted in front of the old run
      without reaching it, while the old run's first transaction is still payable: demotion
      looks for a gap only at the front of the list. */
  ghost predicate Heals(q: Pool, a: Address) {
    var pend, good, s := Of(q.pending, a), Sound(q, a), q.chain.Nonce(a);
    || pend == map[]
    || s !in good
    || RunEnd(good, s) == MinKey(pend)
    || !Payable(pend[MinKey(pend)], q.chain.Balance(a), q.chain.maxGas)
  }

  /** What promotion puts in front of pend, and what demotion then keeps. */
  function Promoted(pend: Items, good: Items, s: uint64): Items {
    if s in good then pend + Below(good, RunEnd(good, s)) else pend
  }

  function Demoted(pend: Items, s: uint64, balance: nat, maxGas: nat): Items {
    var kept := Kept(pend, true, balance, maxGas);
    if kept != map[] && s !in kept then map[] else kept
  }

  lemma RunFacts(good: Items, s: uint64)
    requires s in good && forall n :: n in good ==> n >= s
    ensures RunEnd(good, s) > s && Interval(Below(good, RunEnd(good, s)), s, RunEnd(good, s))
  {}

  lemma LoweredLists(pend: Items, good: Items, s: uint64, s0: uint64, v: nat, balance: nat, maxGas: nat)
    requires Interval(pend, s0, v) && s < s0 <= v <= MAX_UINT64 && good.Keys !! pend.Keys
    requires forall n :: n in good ==> n >= s && Payable(good[n], balance, maxGas)
    ensures FromTo(Demoted(Promoted(pend, good, s), s, balance, maxGas), s) <==>
      pend == map[] || s !in good || RunEnd(good, s) == s0 || !Payable(pend[MinKey(pend)], balance, maxGas)
  {
    hide Demoted, FromTo, Payable, RunEnd;
    if s !in good {
      NoRunInFront(pend, s, s0, v, balance, maxGas);
      return;
    }
    var r := RunEnd(good, s);
    RunFacts(good, s);
    var run := Below(good, r);
    if pend == map[] {
      assert map[] + run == run;
      KeptIsRun(run, s, r, balance, maxGas);
      return;
    }
    assert s0 in pend && MinKey(pend) == s0;
    assert r <= s0 by { assert s0 !in good; }
    assert forall n :: n in run ==> Payable(run[n], balance, maxGas);
    if r == s0 {
      KeptIsRun(pend + run, s, v, balance, maxGas);
    } else if !Payable(pend[s0], balance, maxGas) {
      RunAlone(pend, run, s, s0, v, r, balance, maxGas);
    } else {
      GapStays(pend, run, s, s0, v, r, balance, maxGas);
    }
  }

  lemma NoRunInFront(pend: Items, s: uint64, s0: uint64, v: nat, balance: nat, maxGas: nat)
    requires Interval(pend, s0, v) && s < s0
    ensures FromTo(Demoted(pend, s, balance, maxGas), s)
  {
    var kept := Kept(pend, true, balance, maxGas);
    assert s !in kept;
    assert Demoted(pend, s, balance, maxGas) == map[];
    IsFromTo(map[], s, s);
  }

  /** The old run's first transaction fails, so only the new run is kept. */
  lemma RunAlone(pend: Items, run: Items, s: uint64, s0: uint64, v: nat, r: nat, balance: nat, maxGas: nat)
    requires Interval(pend, s0, v) && s0 < v && Interval(run, s, r) && s < r <= s0
    requires (forall n :: n in run ==> Payable(run[n], balance, maxGas)) && !Payable(pend[s0], balance, maxGas)
    ensures FromTo(Demoted(pend + run, s, balance, maxGas), s)
  {
    var m := pend + run;
    var bad := Unpayables(m, balance, maxGas);
    assert s0 in m && s0 in bad;
    forall n | n in bad ensures n >= s0 { assert n !in run; }
    assert MinKey(bad) == s0;
    var kept := Kept(m, true, balance, maxGas);
    forall n: uint64 ensures n in kept <==> s <= n < r {}
    assert s in kept;
    IsFromTo(kept, s, r);
  }

  /** Both runs are kept, and the nonce r between them is missing. */
  lemma GapStays(pend: Items, run: Items, s: uint64, s0: uint64, v: nat, r: nat, balance: nat, maxGas: nat)
    requires Interval(pend, s0, v) && s0 < v && Interval(run, s, r) && s < r < s0
    requires (forall n :: n in run ==> Payable(run[n], balance, maxGas)) && Payable(pend[s0], balance, maxGas)
    ensures !FromTo(Demoted(pend + run, s, balance, maxGas), s)
  {
    var m := pend + run;
    var bad, kept := Unpayables(m, balance, maxGas), Kept(m, true, balance, maxGas);
    forall n | n in bad ensures n > s0 {
      assert n !in run && n in pend;
    }
    var q: uint64 := r;
    assert s0 in kept && s in kept && q !in kept;
    GapIsNoRun(kept, s, q, s0);
  }

  lemma GapIsNoRun(m: Items, s: uint64, q: uint64, n: uint64)
    requires s <= q < n && q !in m && n in m
    ensures !FromTo(m, s)
  {
    forall e: nat ensures !Interval(m, s, e) {
      assert Interval(m, s, e) ==> (n in m <==> s <= n < e) && (q in m <==> s <= q < e);
    }
  }

  lemma KeptIsRun(m: Items, s: uint64, e: nat, balance: nat, maxGas: nat)
    requires Interval(m, s, e) && s <= e <= MAX_UINT64 + 1
    ensures FromTo(Demoted(m, s, balance, maxGas), s)
  {
    FilterContiguous(m, s, e, balance, maxGas);
    MinInPart(m, balance, maxGas);
    var bad := Unpayables(m, balance, maxGas);
    var e' := if bad == map[] then e else MinKey(bad);
    var kept := Kept(m, true, balance, maxGas);
    assert Interval(kept, s, e');
    hide Kept, Unpayables;
    if kept != map[] {
      var n :| n in kept;
      assert s in kept;
    }
    IsFromTo(kept, s, e');
  }

  /** The pending list a lowering reset leaves is one run just when Heals says so. */
  lemma LoweredPending(q: Pool, a: Address, s0: uint64, accountQueue: nat)
    requires Inv(q) && Lifted(q, a, s0) && !TakesLast(q, a)
    ensures var r := DemoteAccount(PromoteAccount(q, a, accountQueue), a);
      && r.chain == q.chain && (Fronted(r, a) <==> Heals(q, a)) && MAX_UINT64 !in Of(r.pending, a)
      && (forall n :: n in Of(r.pending, a) ==> n >= q.chain.Nonce(a))
  {
    var pend, good, s, v := Of(q.pending, a), Sound(q, a), q.chain.Nonce(a), RunEnd(Of(q.pending, a), s0);
    assert pend != map[] ==> MinKey(pend) == s0 by {
      if pend != map[] { assert MinKey(pend) in pend; var k: uint64 := s0; assert k in pend; }
    }
    PromotedMax(q, a);
    hide Inv, Payable, RunEnd, Interval, PromoteAccount, DemoteAccount, Promoted, Demoted, FromTo, Sound, VNonce, Of;
    GoodFacts(q, a);
    PromotedList(q, a, accountQueue);
    DemotedList(PromoteAccount(q, a, accountQueue), a);
    DemotedPart(Promoted(pend, good, s), s, q.chain.Balance(a), q.chain.maxGas);
    LoweredLists(pend, good, s, s0, v, q.chain.Balance(a), q.chain.maxGas);
  }

  lemma PromotedMax(q: Pool, a: Address)
    requires Inv(q) && !TakesLast(q, a) && VNonce(q, a) == q.chain.Nonce(a) && MAX_UINT64 !in Of(q.pending, a)
    requires forall n :: n in Of(q.pending, a) ==> n >= q.chain.Nonce(a)
    ensures var m := Promoted(Of(q.pending, a), Sound(q, a), q.chain.Nonce(a));
      MAX_UINT64 !in m && forall n :: n in m ==> n >= q.chain.Nonce(a)
  {
    SoundFacts(q, a);
    var good, s := Sound(q, a), q.chain.Nonce(a);
    hide Inv, Sound, RunEnd;
    if s in good { assert MinKey(good) == s; }
  }

  lemma DemotedPart(m: Items, s: uint64, balance: nat, maxGas: nat)
    ensures Part(Demoted(m, s, balance, maxGas), m)
  {}

  lemma GoodFacts(p: Pool, a: Address)
    requires Inv(p)
    ensures Sound(p, a).Keys !! Of(p.pending, a).Keys
    ensures forall n :: n in Sound(p, a) ==> n >= p.chain.Nonce(a) && Payable(Sound(p, a)[n], p.chain.Balance(a), p.chain.maxGas)
  {
    SoundFacts(p, a);
  }

  lemma PromotedList(p: Pool, a: Address, accountQueue: nat)
    requires VNonce(p, a) == p.chain.Nonce(a)
    requires forall n :: n in Sound(p, a) ==> n >= p.chain.Nonce(a)
    ensures var q := PromoteAccount(p, a, accountQueue);
      q.chain == p.chain && Of(q.pending, a) == Promoted(Of(p.pending, a), Sound(p, a), p.chain.Nonce(a))
  {
    hide Payable, Lowest, TxsOf;
    var good, s := Sound(p, a), p.chain.Nonce(a);
    if a !in p.queue {
      assert good == map[];
      return;
    }
    var end := RunOf(good, s);
    OfWith(p.pending, a, Of(p.pending, a) + Below(good, end), a);
    if s in good {
      assert MinKey(good) == s;
    } else {
      BelowZero(good);
      assert Of(p.pending, a) + map[] == Of(p.pending, a);
    }
  }

  lemma DemotedList(p: Pool, a: Address)
    requires forall n :: n in Of(p.pending, a) ==> n >= p.chain.Nonce(a)
    ensures var q := DemoteAccount(p, a);
      q.chain == p.chain && Of(q.pending, a) == Demoted(Of(p.pending, a), p.chain.Nonce(a), p.chain.Balance(a), p.chain.maxGas)
  {
    hide Payable, TxsOf, Invalidated;
    if a !in p.pending {
      assert Kept(map[], true, p.chain.Balance(a), p.chain.maxGas) == map[];
      return;
    }
    var pend := Of(p.pending, a);
    assert Unmined(p, a) == pend;
    var kept := Kept(pend, true, p.chain.Balance(a), p.chain.maxGas);
    hide Kept;
    OfWith(p.pending, a, kept, a);
    OfWith(p.pending, a, map[], a);
  }

  // ----- truncation after a reset -----

  /** What is left of a pending list when its end has been cut off, down to the virtual
      nonce. */
  ghost predicate CutBack(m: Items, x: uint64, p: Pool, a: Address) {
    Of(p.pending, a) == Below(m, VNonce(p, a)) && (VNonce(p, a) == x || VNonce(p, a) in m)
  }

  lemma TrimStep(m: Items, x: uint64, p: Pool, e: Edit, a: Address, c: Config)
    requires Inv(p) && Trims(e) && CutBack(m, x, p, a)
    ensures CutBack(m, x, Apply(p, e, c), a) && Apply(p, e, c).chain == p.chain
  {
    SameChain(p, e, c);
    hide Inv, RemoveTx, CapAccount, CutBack;
    match e
    case Drop(tx) => DropTrims(m, x, p, tx, a);
    case Cap(b, k) => CapTrims(m, x, p, b, k, a);
  }

  lemma DropTrims(m: Items, x: uint64, p: Pool, tx: Tx, a: Address)
    requires Inv(p) && CutBack(m, x, p, a)
    ensures CutBack(m, x, RemoveTx(p, tx), a)
  {
    hide Inv, Belongs, From, Delete, Below;
    var q := RemoveTx(p, tx);
    if tx !in p.known {
      return;
    }
    if tx.from == a && tx.nonce in Of(p.pending, a) {
      OfWith(p.pending, a, Below(Of(p.pending, a), tx.nonce), a);
      BelowTwice(m, VNonce(p, a), tx.nonce);
    } else {
      SamePending(p, q, tx, a);
    }
  }

  lemma CapTrims(m: Items, x: uint64, p: Pool, b: Address, k: nat, a: Address)
    requires CutBack(m, x, p, a)
    ensures CutBack(m, x, CapAccount(p, b, k), a)
  {
    hide TxsOf, Lowest, Below;
    var pend := Of(p.pending, b);
    if Cut(pend, k) == map[] {
      return;
    }
    OfWith(p.pending, b, Lowest(pend, k), a);
    CutIsBelow(pend, k);
    if a == b { BelowTwice(m, VNonce(p, a), MinKey(Cut(pend, k))); }
  }

  lemma BelowTwice(m: Items, v: uint64, n: uint64)
    requires n in Below(m, v)
    ensures n in m && n < v && Below(Below(m, v), n) == Below(m, n)
  {}

  lemma {:induction false} TrimAll(m: Items, x: uint64, p: Pool, es: seq<Edit>, a: Address, c: Config)
    requires Inv(p) && AllTrim(es) && CutBack(m, x, p, a)
    ensures CutBack(m, x, Replay(p, es, c), a) && Replay(p, es, c).chain == p.chain
    decreases |es|
  {
    hide Inv, Apply, CutBack;
    if es != [] {
      ApplyInv(p, es[0], c);
      TrimStep(m, x, p, es[0], a, c);
      TrimAll(m, x, Apply(p, es[0], c), es[1..], a, c);
    }
  }

  lemma RenewedNonce(p: Pool, a: Address)
    requires Inv(p)
    ensures var q := Renonce(p);
      if MAX_UINT64 in Of(p.pending, a) then VNonce(q, a) == 0 else CutBack(Of(p.pending, a), VNonce(q, a), q, a)
  {
    if MAX_UINT64 in Of(p.pending, a) {
      assert MaxKey(p.pending[a]) == MAX_UINT64;
    } else if a in p.pending { assert Of(p.pending, a) == Below(Of(p.pending, a), VNonce(Renonce(p), a)); }
  }

  /** If there was no gap there is none afterwards. */
  lemma TrimSteady(m: Items, x: uint64, p: Pool, a: Address)
    requires CutBack(m, x, p, a) && p.chain.Nonce(a) <= x && Interval(m, p.chain.Nonce(a), x)
    ensures Steady(p, a)
  {}

  /** If there was one, it is gone just when the virtual nonce has come down below it. */
  lemma TrimExact(m: Items, x: uint64, p: Pool, a: Address)
    requires CutBack(m, x, p, a) && m == Below(m, x) && !FromTo(m, p.chain.Nonce(a))
    requires forall n :: n in m ==> n >= p.chain.Nonce(a)
    ensures Steady(p, a) <==> VNonce(p, a) < RunEnd(m, p.chain.Nonce(a))
  {
    var s, v, r := p.chain.Nonce(a), VNonce(p, a), RunEnd(m, p.chain.Nonce(a));
    if m == map[] {
      IsFromTo(m, s, s);
    }
    if v == r {
      assert forall n :: n in m ==> n < x;
      IsFromTo(m, s, r);
    }
    if v > r {
      var k: uint64 := r;
      assert k !in m && k !in Of(p.pending, a);
      assert s <= k < v;
    } else {
      assert s <= v;
    }
  }

  /** A promotion that takes the last nonce is undone by demotion if a pending transaction
      before it is unpayable, and only then. */
  lemma LastDemoted(q: Pool, a: Address, accountQueue: nat)
    requires Inv(q) && Settling(q, a) && TakesLast(q, a)
    ensures Inv(PromoteAccount(q, a, accountQueue))
    ensures var r := DemoteAccount(PromoteAccount(q, a, accountQueue), a);
      Fronted(r, a) <==> Unpaid(q, a)
  {
    var good, s := Sound(q, a), q.chain.Nonce(a);
    var end := RunOf(good, VNonce(q, a));
    PromoteInv(q, a, accountQueue);
    PromotedPending(q, a, accountQueue);
    GoodFacts(q, a);
    assert good != map[] && MinKey(good) <= VNonce(q, a);
    PromoteExtends(Of(q.pending, a), good, s, VNonce(q, a), End(q, a), end);
    var p1 := PromoteAccount(q, a, accountQueue);
    DemotedLists(p1, a);
    assert Interval(Unmined(p1, a), s, MAX_UINT64 + 1);
    SameBad(Of(q.pending, a), ReadyRun(q, a), s, q.chain.Balance(a), q.chain.maxGas);
    hide Inv, PromoteAccount, DemoteAccount, Sound, RunOf, Invalidated, Of;
    WholeRunKept(Unmined(p1, a), s, q.chain.Balance(a), q.chain.maxGas);
  }

  /** A pending transaction of a that is not mined cannot be paid for. */
  ghost predicate Unpaid(q: Pool, a: Address) { Unpayables(Unmined(q, a), q.chain.Balance(a), q.chain.maxGas) != map[] }

  lemma SameBad(pend: Items, ready: Items, s: nat, balance: nat, maxGas: nat)
    requires pend.Keys !! ready.Keys && forall n :: n in ready ==> Payable(ready[n], balance, maxGas)
    ensures Unpayables(From(pend + ready, s), balance, maxGas) == Unpayables(From(pend, s), balance, maxGas)
  {
    hide Payable;
  }

  /** A list of all nonces from s on keeps the last one unless something in it is unpayable. */
  lemma WholeRunKept(m: Items, s: uint64, balance: nat, maxGas: nat)
    requires Interval(m, s, MAX_UINT64 + 1)
    ensures var kept := Kept(m, true, balance, maxGas);
      var left := if kept != map[] && s !in kept then map[] else kept;
      FromTo(left, s) && MAX_UINT64 !in left <==> Unpayables(m, balance, maxGas) != map[]
  {
    var kept, bad := Kept(m, true, balance, maxGas), Unpayables(m, balance, maxGas);
    FilterContiguous(m, s, MAX_UINT64 + 1, balance, maxGas);
    MinInPart(m, balance, maxGas);
    var last: uint64 := MAX_UINT64;
    assert last in kept <==> bad == map[];
    hide Kept, Unpayables;
    if bad != map[] {
      var e := MinKey(bad);
      assert Interval(kept, s, e);
      if s in kept { IsFromTo(kept, s, e); } else { IsFromTo(map[], s, s); }
      if kept != map[] { var n :| n in kept; assert s in kept; }
    }
  }

  /** After a lowered nonce only an account with nothing pending can promote its last nonce. */
  lemma LiftedEmpty(q: Pool, a: Address, s0: uint64)
    requires Inv(q) && Lifted(q, a, s0) && TakesLast(q, a)
    ensures Of(q.pending, a) == map[] && Settling(q, a) && !Unpaid(q, a)
  {
    var good, pend, s := Sound(q, a), Of(q.pending, a), q.chain.Nonce(a);
    SoundFacts(q, a);
    assert MAX_UINT64 in good && MinKey(good) == s;
    var k: uint64 := s0;
    assert k in good && k !in pend;
    assert forall n: uint64 :: n !in pend;
    EndOfInterval(q, a, s);
  }

  /** When a reset leaves a gapless list: if it promotes the account's last nonce, just when
      a pending transaction is unpayable; else if it does not lower the chain nonce, or the
      lists heal. */
  ghost predicate Recovers(p: Pool, op: Op, a: Address, c: Config)
    requires Inv(p) && op.Reset?
  {
    var q := Refilled(p, op, c);
    if TakesLast(q, a) then Unpaid(q, a) else Lowers(p, op, a) ==> Heals(q, a)
  }

  /** Truncation raises no virtual nonce. */
  lemma {:induction false} TrimLowers(p: Pool, es: seq<Edit>, a: Address, c: Config)
    requires Inv(p) && AllTrim(es)
    ensures VNonce(Replay(p, es, c), a) <= VNonce(p, a) && Replay(p, es, c).chain == p.chain
    decreases |es|
  {
    hide Inv, VNonce, Apply;
    if es != [] {
      ApplyInv(p, es[0], c);
      TrimOne(p, es[0], a, c);
      TrimLowers(Apply(p, es[0], c), es[1..], a, c);
    }
  }

  lemma TrimOne(p: Pool, e: Edit, a: Address, c: Config)
    requires Inv(p) && Trims(e)
    ensures VNonce(Apply(p, e, c), a) <= VNonce(p, a) && Apply(p, e, c).chain == p.chain
  {
    hide Inv, Of, With, Lowest, Cut, TxsOf, Below, From, Delete;
  }

  /** A reset, to the letter. Once the virtual nonces are renewed, a is steady exactly when
      it recovers. The truncation that follows keeps that, and removes a gap exactly when it
      cuts into the run in front of it; an account that holds the last nonce is left with a
      virtual nonce of 0. */
  lemma ResetExact(p: Pool, op: Op, a: Address, c: Config)
    requires Inv(p) && Steady(p, a) && op.Reset? && Ordered(p, op, c)
    ensures var f, g := Renewed(p, op, c), Replay(p, Edits(op), c);
      && (Steady(f, a) <==> Recovers(p, op, a, c))
      && (Steady(f, a) ==> Steady(g, a))
      && (MAX_UINT64 !in Of(f.pending, a) ==> (Steady(g, a) <==> Steady(f, a) || VNonce(g, a) < RunEnd(Of(f.pending, a), f.chain.Nonce(a))))
      && (MAX_UINT64 in Of(f.pending, a) ==> (Steady(g, a) <==> f.chain.Nonce(a) == 0 && Of(g.pending, a) == map[]))
  {
    hide Inv, Heals, Unpaid, TakesLast, Settling, Lifted, Replay, PromoteAccount, DemoteAccount, Promotions, Demotions, RunEnd, FromTo, Interval, CutBack, Of, VNonce, Distinct;
    var f, g := Renewed(p, op, c), Replay(p, Edits(op), c);
    ResetRecovers(p, op, a, c);
    ReplayAppend(p, ResetFront(op) + Promotions(op.promoted) + Demotions(op.demoted) + [SetAll], op.after, c);
    if MAX_UINT64 in Of(f.pending, a) {
      TrimLowers(f, op.after, a, c);
      ZeroNonce(g, a);
      WrappedNotSteady(f, a);
      return;
    }
    TrimAll(Of(f.pending, a), VNonce(f, a), f, op.after, a, c);
    if Steady(f, a) {
      TrimSteady(Of(f.pending, a), VNonce(f, a), g, a);
    } else {
      TrimmedSelf(f, a);
      TrimExact(Of(f.pending, a), VNonce(f, a), g, a);
    }
  }

  lemma DemoteAbove(p: Pool, a: Address)
    requires Inv(p)
    ensures var r := DemoteAccount(p, a);
      r.chain == p.chain && forall n :: n in Of(r.pending, a) ==> n >= p.chain.Nonce(a)
  {
    DemotedLists(p, a);
    hide Inv, DemoteAccount, Invalidated, Of;
  }

  lemma ZeroNonce(g: Pool, a: Address)
    ensures VNonce(g, a) == 0 ==> (Steady(g, a) <==> g.chain.Nonce(a) == 0 && Of(g.pending, a) == map[])
  {
    if Steady(g, a) && VNonce(g, a) == 0 {
      assert forall n :: n !in Of(g.pending, a);
    }
  }

  lemma WrappedNotSteady(f: Pool, a: Address)
    requires MAX_UINT64 in Of(f.pending, a)
    ensures !Steady(f, a)
  {
    var last: uint64 := MAX_UINT64;
    assert last in Of(f.pending, a);
  }

  /** The part of it up to the renewed nonces. */
  lemma ResetRecovers(p: Pool, op: Op, a: Address, c: Config)
    requires Inv(p) && Steady(p, a) && op.Reset? && Ordered(p, op, c)
    ensures var f := Renewed(p, op, c);
      && (Steady(f, a) <==> Recovers(p, op, a, c))
      && (MAX_UINT64 in Of(f.pending, a) ==> VNonce(f, a) == 0)
      && (MAX_UINT64 !in Of(f.pending, a) ==> CutBack(Of(f.pending, a), VNonce(f, a), f, a))
      && (MAX_UINT64 !in Of(f.pending, a) && !Steady(f, a) ==> !FromTo(Of(f.pending, a), f.chain.Nonce(a)))
      && (forall n :: n in Of(f.pending, a) ==> n >= f.chain.Nonce(a))
  {
    hide Inv, Heals, Unpaid, TakesLast, Settling, Lifted, Replay, PromoteAccount, DemoteAccount, Promotions, Demotions, FromTo, Interval, CutBack, Of, VNonce, Distinct, Steady;
    var q := Refilled(p, op, c);
    var s0 := p.chain.Nonce(a);
    ReplayAppend(p, HeadEdits(op.head), op.inject, c);
    HeadMoves(p, op.head, a, c);
    Injected(Replay(p, HeadEdits(op.head), c), op.inject, a, s0, c);
    ResetAlone(p, op, a, c);
    ChainKept(q, a, c.accountQueue);
    DemoteAbove(PromoteAccount(q, a, c.accountQueue), a);
    if TakesLast(q, a) {
      if Lowers(p, op, a) { LiftedEmpty(q, a, s0); }
      LastDemoted(q, a, c.accountQueue);
    } else if Lowers(p, op, a) {
      LoweredPending(q, a, s0, c.accountQueue);
    } else {
      PromoteSettling(q, a, c.accountQueue);
      PromoteInv(q, a, c.accountQueue);
      DemoteFronts(PromoteAccount(q, a, c.accountQueue), a);
    }
  }

  lemma ResetTrimmed(p: Pool, op: Op, a: Address, c: Config)
    requires Inv(p) && Steady(p, a) && op.Reset? && Ordered(p, op, c) && MAX_UINT64 !in Of(Renewed(p, op, c).pending, a)
    ensures var f, g := Renewed(p, op, c), Replay(p, Edits(op), c);
      g.chain == f.chain && CutBack(Of(f.pending, a), VNonce(f, a), g, a)
  {
    hide Inv, Replay, Recovers, CutBack, Of, VNonce, Steady, Distinct;
    var f := Renewed(p, op, c);
    ResetRecovers(p, op, a, c);
    ReplayAppend(p, ResetFront(op) + Promotions(op.promoted) + Demotions(op.demoted) + [SetAll], op.after, c);
    TrimAll(Of(f.pending, a), VNonce(f, a), f, op.after, a, c);
  }

  lemma TrimmedSelf(f: Pool, a: Address)
    requires CutBack(Of(f.pending, a), VNonce(f, a), f, a)
    ensures Of(f.pending, a) == Below(Of(f.pending, a), VNonce(f, a))
  {}

  // ----- runs -----

  /** No promotion among the edits takes a's last nonce. */
  ghost predicate NeverLast(p: Pool, es: seq<Edit>, a: Address, c: Config)
    requires Inv(p)
    decreases |es|
  {
    es == [] ||
    (!(es[0] == Promote(a) && TakesLast(p, a)) && (ApplyInv(p, es[0], c); NeverLast(Apply(p, es[0], c), es[1..], a, c)))
  }

  /** What an operation must do for a: a batch promotes no last nonce, and a reset
      recovers. */
  ghost predicate Clean(p: Pool, op: Op, a: Address, c: Config)
    requires Inv(p)
  {
    match op
    case Batch(edits) => NeverLast(p, edits, a, c)
    case Reset(_, _, _, _, _) => Recovers(p, op, a, c)
  }

  lemma QuietStep(p: Pool, e: Edit, a: Address, c: Config)
    requires Inv(p) && Steady(p, a) && Quiet(e) && !(e == Promote(a) && TakesLast(p, a))
    ensures Steady(Apply(p, e, c), a)
  {
    SteadySettles(p, a);
    hide Steady, Settling, Inv, RemoveTx, Insert, PromoteAccount, CapAccount;
    match e
    case Drop(tx) => DropSettling(p, tx, a);
    case Put(tx) => if tx !in p.known { PutSettling(p, tx, c.priceBump, a); }
    case Promote(b) =>
      if b == a {
        PromoteSettling(p, a, c.accountQueue);
      } else {
        PromoteOther(p, b, c.accountQueue, a);
        SameMeans(p, Apply(p, e, c), a);
      }
    case Cap(b, k) => CapSettling(p, b, k, a);
    case MarkLocal(b) => Untouched(p, Apply(p, e, c), a);
  }

  lemma {:induction false} QuietKeeps(p: Pool, es: seq<Edit>, a: Address, c: Config)
    requires Inv(p) && Steady(p, a) && AllQuiet(es) && NeverLast(p, es, a, c)
    ensures Steady(Replay(p, es, c), a)
    decreases |es|
  {
    hide Steady, TakesLast, Inv, Apply;
    if es != [] {
      ApplyInv(p, es[0], c);
      QuietStep(p, es[0], a, c);
      QuietKeeps(Apply(p, es[0], c), es[1..], a, c);
    }
  }

  /** Adding, re-pricing, evicting and truncating promote nothing, so they are clean. */
  lemma {:induction false} InjectsAreClean(p: Pool, es: seq<Edit>, a: Address, c: Config)
    requires Inv(p) && forall e :: e in es ==> Injects(e) || Trims(e)
    ensures Ordered(p, Batch(es), c) && Clean(p, Batch(es), a, c)
    decreases |es|
  {
    hide Inv, Apply, TakesLast;
    if es != [] {
      ApplyInv(p, es[0], c);
      assert es[0] in es && forall e :: e in es[1..] ==> e in es;
      InjectsAreClean(Apply(p, es[0], c), es[1..], a, c);
    }
  }

  lemma OpKeepsSteady(p: Pool, op: Op, a: Address, c: Config)
    requires Inv(p) && Steady(p, a) && Ordered(p, op, c) && Clean(p, op, a, c)
    ensures Steady(Replay(p, Edits(op), c), a)
  {
    hide Steady, Inv, Recovers, Replay, NeverLast, RunEnd, VNonce, Of;
    match op
    case Batch(edits) => QuietKeeps(p, edits, a, c);
    case Reset(_, _, _, _, _) => ResetExact(p, op, a, c);
  }

  function Run(p: Pool, ops: seq<Op>, c: Config): (r: Pool)
    requires Inv(p)
    ensures Inv(r)
    decreases |ops|
  {
    if ops == [] then p else Run(Replay(p, Edits(ops[0]), c), ops[1..], c)
  }

  ghost predicate CleanRun(p: Pool, ops: seq<Op>, a: Address, c: Config)
    requires Inv(p)
    decreases |ops|
  {
    ops == [] || (Ordered(p, ops[0], c) && Clean(p, ops[0], a, c) && CleanRun(Replay(p, Edits(ops[0]), c), ops[1..], a, c))
  }

  /** Over every run of operations that are clean for an account, whatever they do to others:
      whenever the pool lock is released its pending nonces are exactly [chain nonce, virtual
      nonce). */
  lemma {:induction false} EveryRunIsSteady(p: Pool, ops: seq<Op>, a: Address, c: Config)
    requires Inv(p) && Steady(p, a) && CleanRun(p, ops, a, c)
    ensures Steady(Run(p, ops, c), a)
    decreases |ops|
  {
    hide Steady, Inv, Ordered, Clean;
    if ops != [] {
      OpKeepsSteady(p, ops[0], a, c);
      EveryRunIsSteady(Replay(p, Edits(ops[0]), c), ops[1..], a, c);
    }
  }

  lemma EmptyPoolIsSteady(a: Address)
    ensures Inv(EmptyPool) && Steady(EmptyPool, a)
  {}

  // ----- a reset that leaves a gap -----

  /** A plain transfer that the pool accepts, and a head at which its sender can pay for it. */
  function Transfer(nonce: uint64): Tx { Tx(1, nonce, 21000, 1, 1, 0, 110, 0) }

  function ChainAt(nonce: uint64): Chain { Chain(map[1 := nonce], map[1 := 100000], 8000000) }

  /** Nonces 5 and 6 pending, and a head that takes the nonce back to 3: the blocks that held
      3 and 4 are gone, and of the two only 3 comes back. */
  ghost predicate HalfReturned(p: Pool, op: Op, t3: Tx, t5: Tx, t6: Tx) {
    && t3 == Transfer(3) && t5 == Transfer(5) && t6 == Transfer(6)
    && p == Pool(map[1 := map[5 := t5, 6 := t6]], map[], {t5, t6}, map[1 := 7], ChainAt(5), {})
    && op == Reset(Some(ChainAt(3)), [Put(t3)], [1], [1], [])
  }


  /** An orderly reset, from a steady account, that leaves it with a gap. */
  ghost predicate LeavesGap(p: Pool, op: Op, a: Address, c: Config)
    requires Inv(p)
  {
    && Steady(p, a) && op.Reset? && Ordered(p, op, c) && !TakesLast(Refilled(p, op, c), a)
    && !Steady(Replay(p, Edits(op), c), a)
  }

  lemma HalfReturn() returns (p: Pool, op: Op, t3: Tx, t5: Tx, t6: Tx)
    ensures HalfReturned(p, op, t3, t5, t6)
  {
    t3, t5, t6 := Transfer(3), Transfer(5), Transfer(6);
    p := Pool(map[1 := map[5 := t5, 6 := t6]], map[], {t5, t6}, map[1 := 7], ChainAt(5), {});
    op := Reset(Some(ChainAt(3)), [Put(t3)], [1], [1], []);
  }

  /** A re-injection that brings back a part of what was lost can do that. */
  lemma ResetCanLeaveAGap(c: Config)
    ensures exists p, op :: Inv(p) && LeavesGap(p, op, 1, c)
  {
    hide *;
    var p, op, t3, t5, t6 := HalfReturn();
    GapLeft(p, op, t3, t5, t6, c);
  }

  lemma GapLeft(p: Pool, op: Op, t3: Tx, t5: Tx, t6: Tx, c: Config)
    requires HalfReturned(p, op, t3, t5, t6)
    ensures Inv(p) && LeavesGap(p, op, 1, c)
  {
    hide Inv, Ordered, Heals, TakesLast, Refilled, Renewed, Steady, Edits;
    GapPool(p, op, t3, t5, t6);
    GapRefilled(p, op, t3, t5, t6, c);
    GapOrdered(p, op, t3, t5, t6, c);
    GapDoesNotHeal(Refilled(p, op, c), t3, t5, t6);
    NothingTrimmed(p, op, c);
    GapStaysOpen(p, op, c);
  }

  lemma GapStaysOpen(p: Pool, op: Op, c: Config)
    requires Inv(p) && Steady(p, 1) && op.Reset? && Ordered(p, op, c) && !TakesLast(Refilled(p, op, c), 1)
    requires Lowers(p, op, 1) && !Heals(Refilled(p, op, c), 1) && Replay(p, Edits(op), c) == Renewed(p, op, c)
    ensures !Steady(Replay(p, Edits(op), c), 1)
  {
    hide Inv, Ordered, Heals, TakesLast, Refilled, Renewed, Steady, Edits, Lowers, Replay, VNonce, Of, RunEnd;
    ResetExact(p, op, 1, c);
  }

  lemma GapPool(p: Pool, op: Op, t3: Tx, t5: Tx, t6: Tx)
    requires HalfReturned(p, op, t3, t5, t6)
    ensures Inv(p) && Steady(p, 1) && Lowers(p, op, 1)
  {
    assert WellPlaced(p.pending) by { assert p.pending[1].Keys == {5, 6}; }
    forall a ensures Apart(p, a) {}
    forall t ensures t in p.known <==> Listed(p, t) {}
  }

  lemma GapRefilled(p: Pool, op: Op, t3: Tx, t5: Tx, t6: Tx, c: Config)
    requires HalfReturned(p, op, t3, t5, t6) && Inv(p)
    ensures Refilled(p, op, c) == Pool(p.pending, map[1 := map[3 := t3]], {t3, t5, t6}, map[], ChainAt(3), {})
  {
    hide Inv, Replay;
    ReplayAppend(p, HeadEdits(op.head), op.inject, c);
    ReplayOne(p, NewHead(op.head.value), c);
    var p0 := p.(chain := op.head.value, nonces := map[]);
    ReplayOne(p0, Put(t3), c);
    assert 3 !in p0.pending[1];
    assert Insert(p0, t3, c.priceBump).0 == Enqueue(p0, t3);
    assert {t5, t6} - {} + {t3} == {t3, t5, t6};
  }

  lemma GapOrdered(p: Pool, op: Op, t3: Tx, t5: Tx, t6: Tx, c: Config)
    requires HalfReturned(p, op, t3, t5, t6) && Inv(p)
    requires Refilled(p, op, c) == Pool(p.pending, map[1 := map[3 := t3]], {t3, t5, t6}, map[], ChainAt(3), {})
    ensures Ordered(p, op, c)
  {
    hide Inv, Replay, Lowest, Cut, TxsOf, Sound, RunOf;
    var q := Refilled(p, op, c);
    ReplayAppend(p, ResetFront(op), Promotions([1]), c);
    assert Promotions([1]) == [Promote(1)];
    ReplayOne(q, Promote(1), c);
    assert forall a :: a in PromoteAccount(q, 1, c.accountQueue).pending ==> a == 1;
  }

  lemma GapDoesNotHeal(q: Pool, t3: Tx, t5: Tx, t6: Tx)
    requires t3 == Transfer(3) && t5 == Transfer(5) && t6 == Transfer(6)
    requires q == Pool(map[1 := map[5 := t5, 6 := t6]], map[1 := map[3 := t3]], {t3, t5, t6}, map[], ChainAt(3), {})
    ensures !Heals(q, 1) && !TakesLast(q, 1)
  {
    assert Payable(t3, 100000, 8000000) && Payable(t5, 100000, 8000000);
    assert From(map[3 := t3], 3) == map[3 := t3];
    assert Sound(q, 1) == map[3 := t3];
    RunEndIs(map[3 := t3], 3, 4);
    var pend: Items := map[5 := t5, 6 := t6];
    assert 5 in pend && MinKey(pend) == 5;
    assert forall n :: n in ReadyRun(q, 1) ==> n == 3;
  }

  lemma NothingTrimmed(p: Pool, op: Op, c: Config)
    requires Inv(p) && op.Reset? && op.after == []
    ensures Replay(p, Edits(op), c) == Renewed(p, op, c)
  {
    var front := ResetFront(op) + Promotions(op.promoted) + Demotions(op.demoted) + [SetAll];
    assert front + [] == front;
  }
}
