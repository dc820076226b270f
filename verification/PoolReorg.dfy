/** What a critical section of the pool is asked to do, and what it does with it: the
    transactions it re-injects, the state its truncation starts from, and where that ends. */
module PoolReorg {
  import opened Transactions
  import opened Lookup
  import opened PricedLists
  import opened PoolSpec
  import opened PoolSteady
  import opened Truncation
  import opened Heartbeats

  /** A transaction handed to add, with validateTx's verdict on it: a reason to refuse, or
      none. */
  datatype Candidate = Candidate(tx: Tx, invalid: Option<nat>)

  /** What a reset finds: the new head (none if it had to be skipped), the transactions that
      only the old chain had, and the base fee to come, if there is to be one. */
  datatype ResetRequest = ResetRequest(head: Option<Chain>, reinject: seq<Candidate>, baseFee: Option<nat>)

  // ----- re-injection -----

  /** What add depends on: the pool, which of its transactions are remote, and the
      replacements since the last reorganisation. */
  datatype Intake = Intake(pool: Pool, remotes: set<Tx>, changes: nat)

  /** add turns a candidate away, or evicts some transactions and offers it to the lists. */
  datatype Admission = Refused | Offered(drops: seq<Tx>)

  /** The edits of one admission. */
  function Taking(p: Pool, tx: Tx, s: Admission, c: Config): seq<Edit> {
    match s
    case Refused => []
    case Offered(drops) => Drops(drops) + if Insert(RemoveAll(p, drops), tx, c.priceBump).1 then [Put(tx)] else []
  }

  /** How many slots must be freed before tx fits. */
  ghost function Missing(p: Pool, tx: Tx, c: Config): int {
    SlotSum(p.known) + tx.NumSlots() - (c.globalSlots + c.globalQueue)
  }

  /** No remote transaction is cheaper than tx in the order of the heap it may be in. */
  ghost predicate MayBeOutbid(remotes: set<Tx>, fee: Option<nat>, tx: Tx) {
    remotes != {} && forall t :: t in remotes ==> !Cheaper(fee, t, tx) || !Cheaper(None, t, tx)
  }

  /** No remote transaction is cheaper than tx in either order. */
  ghost predicate MustBeOutbid(remotes: set<Tx>, fee: Option<nat>, tx: Tx) {
    remotes != {} && forall t :: t in remotes ==> !Cheaper(fee, t, tx) && !Cheaper(None, t, tx)
  }

  /** The slots freed are enough, or all that the remote transactions have, and no more than
      one transaction too many. */
  ghost predicate Frees(remotes: set<Tx>, drops: seq<Tx>, missing: int) {
    && Members(drops) <= remotes
    && (SlotsOf(multiset(drops)) >= missing || Members(drops) == remotes)
    && (drops != [] ==> SlotsOf(multiset(drops[..|drops| - 1])) < missing)
  }

  /** How add may make room for tx: only a full pool turns it away, if replacements are
      throttled, or if it is remote and outbid or too large; what is evicted is what its slots
      need. */
  ghost predicate Clears(i: Intake, fee: Option<nat>, tx: Tx, remote: bool, refused: bool, drops: seq<Tx>, c: Config) {
    var missing, throttled := Missing(i.pool, tx, c), i.changes > c.globalSlots / 4;
    if missing <= 0 then !refused && drops == []
    else if refused then drops == [] && (throttled || (remote && (MayBeOutbid(i.remotes, fee, tx) || missing > SlotSum(i.remotes))))
    else !throttled && Frees(i.remotes, drops, missing) && !(remote && MustBeOutbid(i.remotes, fee, tx))
  }

  /** An admission add may decide on: what is known or invalid is turned away, and the rest is
      offered if room can be made. */
  ghost predicate Admits(i: Intake, fee: Option<nat>, x: Candidate, local: bool, s: Admission, c: Config) {
    var remote := !local && x.tx.from !in i.pool.locals;
    match s
    case Refused => x.tx in i.pool.known || x.invalid.Some? || Clears(i, fee, x.tx, remote, true, [], c)
    case Offered(drops) => x.tx !in i.pool.known && x.invalid.None? && Clears(i, fee, x.tx, remote, false, drops, c)
  }

  /** ... with the pool and its remote transactions after it. */
  function Admit(i: Intake, tx: Tx, s: Admission, c: Config): (r: Intake)
    requires Inv(i.pool)
    ensures Inv(r.pool)
  {
    var q := Replay(i.pool, Taking(i.pool, tx, s, c), c);
    Intake(q,
      i.remotes * q.known + (if tx in q.known && tx !in i.pool.known && tx.from !in i.pool.locals then {tx} else {}),
      i.changes + if s.Refused? then 0 else |s.drops|)
  }

  /** After the first transactions of xs have been admitted or turned away. */
  function Taken(i: Intake, xs: seq<Candidate>, steps: seq<Admission>, c: Config): (r: Intake)
    requires Inv(i.pool) && |steps| <= |xs|
    ensures Inv(r.pool)
    decreases |steps|
  {
    if steps == [] then i
    else
      var k := |steps| - 1;
      Admit(Taken(i, xs, steps[..k], c), xs[k].tx, steps[k], c)
  }

  /** ... and the edits that took. */
  function Injection(i: Intake, xs: seq<Candidate>, steps: seq<Admission>, c: Config): seq<Edit>
    requires Inv(i.pool) && |steps| <= |xs|
    decreases |steps|
  {
    if steps == [] then []
    else
      var k := |steps| - 1;
      Injection(i, xs, steps[..k], c) + Taking(Taken(i, xs, steps[..k], c).pool, xs[k].tx, steps[k], c)
  }

  ghost predicate Readmits(i: Intake, fee: Option<nat>, xs: seq<Candidate>, steps: seq<Admission>, c: Config)
    requires Inv(i.pool) && |steps| <= |xs|
    decreases |steps|
  {
    steps == [] ||
    var k := |steps| - 1;
    Readmits(i, fee, xs, steps[..k], c) && Admits(Taken(i, xs, steps[..k], c), fee, xs[k], false, steps[k], c)
  }

  /** The edits `inject` offer every transaction of the request to the pool in turn; there are
      none if the reset was skipped. */
  ghost predicate Reinjects(i: Intake, fee: Option<nat>, r: ResetRequest, steps: seq<Admission>, inject: seq<Edit>, c: Config)
    requires Inv(i.pool)
  {
    if r.head.None? then inject == []
    else
      var start := i.(pool := Replay(i.pool, HeadEdits(r.head), c));
      |steps| == |r.reinject| && Readmits(start, fee, r.reinject, steps, c) && inject == Injection(start, r.reinject, steps, c)
  }

  lemma TakingInjects(p: Pool, tx: Tx, s: Admission, a: Address, c: Config)
    ensures AllInject(Taking(p, tx, s, c)) && AllInject(Taking(p, tx, s, c) + [MarkLocal(a)])
  {
    hide RemoveAll, Insert;
  }

  lemma TurnedAway(p: Pool, beats: Beats, tx: Tx, c: Config, now: nat)
    requires Inv(p)
    ensures Taking(p, tx, Refused, c) == [] && Replay(p, [], c) == p && BeatAll(p, beats, [], c, now) == beats
  {}

  /** What an offer makes of the pool and of the heartbeats. */
  lemma OfferReplays(p: Pool, beats: Beats, tx: Tx, drops: seq<Tx>, c: Config, now: nat)
    requires Inv(p) && tx !in p.known && Inv(RemoveAll(p, drops)) && tx !in RemoveAll(p, drops).known
    ensures var r, es := Insert(RemoveAll(p, drops), tx, c.priceBump), Taking(p, tx, Offered(drops), c);
      && Inv(r.0) && Replay(p, es, c) == r.0 && (r.1 <==> tx in r.0.known) && (!r.1 ==> r.0 == RemoveAll(p, drops))
      && BeatAll(p, beats, es, c, now) == BeatPut(RemoveAll(p, drops), BeatAll(p, beats, Drops(drops), c, now), tx, c, now)
      && es == (if r.1 then Drops(drops) + [Put(tx)] else Drops(drops)) && r.0.locals == p.locals
  {
    var p1 := RemoveAll(p, drops);
    RemoveAllInv(p, drops);
    InsertMeans(p1, tx, c);
    hide Inv, RemoveAll, Insert, BeatPut;
    DropsReplay(p, drops, c);
    if Insert(p1, tx, c.priceBump).1 {
      ReplayAppend(p, Drops(drops), [Put(tx)], c);
      ReplayOne(p1, Put(tx), c);
      BeatSnoc(p, beats, Drops(drops), Put(tx), c, now);
    } else {
      assert Drops(drops) + [] == Drops(drops);
      RefusedBeats(p1, BeatAll(p, beats, Drops(drops), c, now), tx, c, now);
    }
  }

  lemma InsertMeans(p: Pool, tx: Tx, c: Config)
    requires Inv(p) && tx !in p.known
    ensures var r := Insert(p, tx, c.priceBump);
      Inv(r.0) && (r.1 <==> tx in r.0.known) && (!r.1 ==> r.0 == p) && r.0.known <= p.known + {tx} && r.0.locals == p.locals
  {
    InsertInv(p, tx, c.priceBump);
    hide Inv, Of;
  }

  lemma RefusedBeats(p: Pool, beats: Beats, tx: Tx, c: Config, now: nat)
    requires !Insert(p, tx, c.priceBump).1
    ensures BeatPut(p, beats, tx, c, now) == beats
  {}

  /** The remote transactions after an offer. */
  lemma OfferAdmits(i: Intake, tx: Tx, drops: seq<Tx>, remotes: set<Tx>, c: Config)
    requires Inv(i.pool) && tx !in i.pool.known && i.remotes <= i.pool.known && Members(drops) <= i.remotes
    requires var r := Insert(RemoveAll(i.pool, drops), tx, c.priceBump);
      remotes == (i.remotes - Members(drops)) * r.0.known + if r.1 && tx.from !in i.pool.locals then {tx} else {}
    ensures Admit(i, tx, Offered(drops), c) ==
      Intake(Insert(RemoveAll(i.pool, drops), tx, c.priceBump).0, remotes, i.changes + |drops|)
  {
    RemoveAllInv(i.pool, drops);
    hide Inv, RemoveAll, Insert, Taking, Replay, Members;
    OfferReplays(i.pool, map[], tx, drops, c, 0);
    InsertMeans(RemoveAll(i.pool, drops), tx, c);
    KnownLess(i.remotes, i.pool.known, Members(drops), Insert(RemoveAll(i.pool, drops), tx, c.priceBump).0.known, tx);
  }

  lemma KnownLess(remotes: set<Tx>, known: set<Tx>, gone: set<Tx>, after: set<Tx>, tx: Tx)
    requires remotes <= known && tx !in known && after <= known - gone + {tx}
    ensures (remotes - gone) * after == remotes * after
  {}

  lemma RefusalAdmits(i: Intake, tx: Tx, c: Config)
    requires Inv(i.pool) && i.remotes <= i.pool.known
    ensures Admit(i, tx, Refused, c) == i
  {
    TurnedAway(i.pool, map[], tx, c, 0);
    hide Inv, Replay;
    assert i.remotes * i.pool.known == i.remotes;
  }

  lemma TakenNone(i: Intake, fee: Option<nat>, xs: seq<Candidate>, c: Config)
    requires Inv(i.pool)
    ensures Taken(i, xs, [], c) == i && Injection(i, xs, [], c) == [] && Readmits(i, fee, xs, [], c)
  {}

  lemma TakenNext(i: Intake, fee: Option<nat>, xs: seq<Candidate>, steps: seq<Admission>, s: Admission, c: Config)
    requires Inv(i.pool) && |steps| < |xs| && Readmits(i, fee, xs, steps, c)
    requires Admits(Taken(i, xs, steps, c), fee, xs[|steps|], false, s, c)
    ensures var t, more := Taken(i, xs, steps, c), steps + [s];
      && Taken(i, xs, more, c) == Admit(t, xs[|steps|].tx, s, c)
      && Injection(i, xs, more, c) == Injection(i, xs, steps, c) + Taking(t.pool, xs[|steps|].tx, s, c)
      && Readmits(i, fee, xs, more, c)
  {
    hide Admit, Admits, Taking;
    assert (steps + [s])[..|steps|] == steps;
  }

  lemma {:induction false} TakenReplays(i: Intake, xs: seq<Candidate>, steps: seq<Admission>, c: Config)
    requires Inv(i.pool) && |steps| <= |xs|
    ensures Taken(i, xs, steps, c).pool == Replay(i.pool, Injection(i, xs, steps, c), c)
    decreases |steps|
  {
    if steps != [] {
      var k := |steps| - 1;
      TakenReplays(i, xs, steps[..k], c);
      ReplayAppend(i.pool, Injection(i, xs, steps[..k], c), Taking(Taken(i, xs, steps[..k], c).pool, xs[k].tx, steps[k], c), c);
    }
  }

  // ----- truncation -----

  /** The edits of an operation up to its truncation. */
  function FrontEdits(op: Op, dirty: seq<Address>): seq<Edit> {
    match op
    case Batch(_) => Promotions(dirty)
    case Reset(_, _, promoted, demoted, _) => ResetFront(op) + Promotions(promoted) + Demotions(demoted) + [SetAll]
  }

  /** Truncation from p to q: the pending lists are water-filled down to `level` if they exceed
      their limit, and the queue is emptied by age down to its own. */
  ghost predicate Shrinks(p: Pool, q: Pool, beats: Beats, level: nat, c: Config) {
    && (if Total(p.pending) <= c.globalSlots then q.pending == p.pending
        else WaterFilled(p.pending, q.pending, p.locals, level, c.accountSlots, c.globalSlots))
    && ByAge(p.queue, q.queue, p.locals, beats)
    && (if Total(p.queue) <= c.globalQueue then q.queue == p.queue
        else Total(q.queue) == Max(c.globalQueue, Total(Only(p.queue, p.locals))))
  }

  /** The pending list that truncation leaves an account. */
  lemma ShrunkList(p: Pool, q: Pool, beats: Beats, level: nat, c: Config, a: Address)
    requires Inv(p) && Shrinks(p, q, beats, level, c)
    ensures var full := Total(p.pending) > c.globalSlots && a !in p.locals;
      && |Of(q.pending, a)| == (if full then Min(|Of(p.pending, a)|, level) else |Of(p.pending, a)|)
      && (Of(p.pending, a) != map[] ==> Of(q.pending, a) != map[])
  {
    hide Inv, Total, ByAge, Only, LowestOf, CapOn;
    if Total(p.pending) > c.globalSlots {
      WaterFilledMeans(p.pending, q.pending, p.locals, level, c.accountSlots, c.globalSlots);
      if a in p.pending && a !in p.locals { LowestCount(p.pending[a], q.pending[a], level); }
    }
  }

  lemma LowestCount(before: Items, after: Items, level: nat)
    requires LowestOf(before, after, level)
    ensures |after| == Min(|before|, level)
  {}

  /** How many nonces a list has below e, when it has them all from s on. */
  lemma {:induction false} BelowSize(m: Items, s: nat, e: nat)
    requires s <= e <= MAX_UINT64 + 1 && (forall n :: n in m ==> n >= s) && forall k: uint64 :: s <= k < e ==> k in m
    ensures |Below(m, e)| == e - s
    decreases e
  {
    if e == s {
      assert Below(m, e) == map[];
    } else {
      BelowSize(m, s, e - 1);
      var k: uint64 := e - 1;
      assert Below(m, e) == Below(m, e - 1)[k := m[k]];
    }
  }

  /** What is left of a list below v is shorter than its first run just when v is inside it. */
  lemma BelowShorter(m: Items, s: uint64, v: uint64)
    requires s <= v && forall n :: n in m ==> n >= s
    ensures v < RunEnd(m, s) <==> |Below(m, v)| < RunEnd(m, s) - s
  {
    var r := RunEnd(m, s);
    if v < r {
      BelowSize(m, s, v);
    } else {
      BelowSize(m, s, r);
      assert Below(m, r).Keys <= Below(m, v).Keys;
      SubsetSize(Below(m, r).Keys, Below(m, v).Keys);
    }
  }

  /** Truncation after a reset, read before it: a is steady afterwards exactly when the reset
      recovers, or the pool is over its limit and the water level cuts a's list, a remote one,
      inside the run in front of the gap. A list that holds the last nonce stays broken. */
  lemma ResetTruncated(p: Pool, op: Op, beats: Beats, level: nat, a: Address, c: Config)
    requires Inv(p) && Steady(p, a) && op.Reset? && Ordered(p, op, c)
    requires Shrinks(Renewed(p, op, c), Replay(p, Edits(op), c), beats, level, c)
    ensures var f, g := Renewed(p, op, c), Replay(p, Edits(op), c);
      var pend, s := Of(f.pending, a), f.chain.Nonce(a);
      var cutsIn := MAX_UINT64 !in pend && Total(f.pending) > c.globalSlots && a !in f.locals && level < RunEnd(pend, s) - s;
      Steady(g, a) <==> Recovers(p, op, a, c) || cutsIn
  {
    var f, g := Renewed(p, op, c), Replay(p, Edits(op), c);
    ResetExact(p, op, a, c);
    ResetRecovers(p, op, a, c);
    ShrunkList(f, g, beats, level, c, a);
    if MAX_UINT64 !in Of(f.pending, a) && !Steady(f, a) {
      ResetTrimmed(p, op, a, c);
      hide Inv, Shrinks, Recovers, Ordered, Edits, Renewed, Replay, Total, Steady, RunEnd;
      CutInside(f, g, a);
    }
  }

  /** The first run of a gapped list is what decides. */
  lemma CutInside(f: Pool, g: Pool, a: Address)
    requires g.chain == f.chain && CutBack(Of(f.pending, a), VNonce(f, a), g, a) && CutBack(Of(f.pending, a), VNonce(f, a), f, a)
    requires !FromTo(Of(f.pending, a), f.chain.Nonce(a)) && forall n :: n in Of(f.pending, a) ==> n >= f.chain.Nonce(a)
    ensures var r, s := RunEnd(Of(f.pending, a), f.chain.Nonce(a)), f.chain.Nonce(a);
      && (VNonce(g, a) < r <==> |Of(g.pending, a)| < r - s)
      && r - s <= |Of(f.pending, a)|
  {
    var pend, s := Of(f.pending, a), f.chain.Nonce(a);
    var r := RunEnd(pend, s);
    if pend == map[] {
      IsFromTo(pend, s, s);
    }
    BelowShorter(pend, s, VNonce(g, a));
    BelowSize(pend, s, r);
    assert Below(pend, r).Keys <= pend.Keys;
    SubsetSize(Below(pend, r).Keys, pend.Keys);
  }
}
