/** The heartbeats of the pool's accounts: what each edit makes of them, at a given time. */
module Heartbeats {
  import opened Transactions
  import opened TxLists
  import opened PoolSpec
  import opened PoolSteady

  type Beats = map<Address, nat>

  /** A heartbeat is recorded unless there is one. */
  function Touch(beats: Beats, a: Address, now: nat): Beats { if a in beats then beats else beats[a := now] }

  function Stopped(beats: Beats, a: Address): Beats { map b | b in beats && b != a :: beats[b] }

  /** removeTx: transactions that go back to the queue touch the account; an emptied queue
      forgets it. */
  function BeatDrop(p: Pool, beats: Beats, tx: Tx, now: nat): Beats {
    var a, pend, queued := tx.from, Of(p.pending, tx.from), Of(p.queue, tx.from);
    if tx !in p.known then beats
    else if tx.nonce in pend then
      if From(pend, tx.nonce + 1) == map[] then beats else Touch(beats, a, now)
    else if Delete(queued, tx.nonce) == map[] then Stopped(beats, a)
    else beats
  }

  /** add: a pending replacement renews the heartbeat, a queued transaction touches it. */
  function BeatPut(p: Pool, beats: Beats, tx: Tx, c: Config, now: nat): Beats {
    if tx in p.known || !Insert(p, tx, c.priceBump).1 then beats
    else if tx.nonce in Of(p.pending, tx.from) then beats[tx.from := now]
    else Touch(beats, tx.from, now)
  }

  /** promoteExecutables: a promotion renews the heartbeat, and an emptied queue forgets it. */
  function BeatPromote(p: Pool, beats: Beats, a: Address, c: Config, now: nat): Beats {
    if a !in p.queue then beats
    else
      var renewed := if ReadyRun(p, a) == map[] then beats else beats[a := now];
      if LeftQueued(p, a, c.accountQueue) == map[] then Stopped(renewed, a) else renewed
  }

  /** demoteUnexecutables: a transaction that goes back to the queue touches the account. */
  function BeatDemote(p: Pool, beats: Beats, a: Address, now: nat): Beats {
    var live, balance, maxGas := Unmined(p, a), p.chain.Balance(a), p.chain.maxGas;
    var kept := Kept(live, true, balance, maxGas);
    if a !in p.pending then beats
    else if Invalidated(live, true, balance, maxGas) == map[] && (kept == map[] || p.chain.Nonce(a) in kept) then beats
    else Touch(beats, a, now)
  }

  function Beat(p: Pool, beats: Beats, e: Edit, c: Config, now: nat): Beats {
    match e
    case Drop(tx) => BeatDrop(p, beats, tx, now)
    case Put(tx) => BeatPut(p, beats, tx, c, now)
    case Promote(a) => BeatPromote(p, beats, a, c, now)
    case Demote(a) => BeatDemote(p, beats, a, now)
    case Cap(_, _) => beats
    case MarkLocal(_) => beats
    case NewHead(_) => beats
    case SetAll => beats
  }

  function BeatOf(beats: Beats, a: Address): Option<nat> { if a in beats then Some(beats[a]) else None }

  /** A list gains a transaction. */
  ghost predicate Gains(m: Items, r: Items) { exists n :: n in r && !(n in m && m[n] == r[n]) }

  /** What an edit may do to an account's heartbeat, given its lists before and after: a new
      time is the present one; it is forgotten only with an empty queue, and recorded for every
      queue; a gain on the pending list renews it (unless a promotion empties the queue), and
      nothing else changes it. */
  ghost predicate BeatsWell(pend: Items, pend': Items, queued: Items, queued': Items, was: Option<nat>, beat: Option<nat>, put: bool, now: nat) {
    && (beat == None || beat == was || beat == Some(now))
    && (was.Some? && beat.None? ==> queued' == map[])
    && (queued' != map[] && (queued != map[] ==> was.Some?) ==> beat.Some?)
    && (Gains(pend, pend') && (put || queued' != map[]) ==> beat == Some(now))
    && (was.Some? && beat.Some? && beat != was ==> Gains(pend, pend'))
    && (pend' == pend && queued' == queued ==> (beat.Some? <==> was.Some?))
  }

  lemma BeatMeans(p: Pool, beats: Beats, e: Edit, c: Config, now: nat, a: Address)
    requires Inv(p)
    ensures var q := Apply(p, e, c);
      BeatsWell(Of(p.pending, a), Of(q.pending, a), Of(p.queue, a), Of(q.queue, a),
                BeatOf(beats, a), BeatOf(Beat(p, beats, e, c, now), a), e.Put?, now)
  {
    hide BeatsWell, RemoveTx, Insert, PromoteAccount, DemoteAccount, CapAccount, Inv, BeatDrop, BeatPut, BeatPromote, BeatDemote;
    match e
    case Drop(tx) => BeatDropMeans(p, beats, tx, now, a);
    case Put(tx) => BeatPutMeans(p, beats, tx, c, now, a);
    case Promote(b) => BeatPromoteMeans(p, beats, b, c, now, a);
    case Demote(b) => BeatDemoteMeans(p, beats, b, now, a);
    case Cap(b, k) =>
      LowestIn(Of(p.pending, b), k);
      CappedLists(p, b, k, a);
      BeatSame(Of(p.pending, a), Of(CapAccount(p, b, k).pending, a), Of(p.queue, a), BeatOf(beats, a), false, now);
    case _ => BeatSame(Of(p.pending, a), Of(p.pending, a), Of(p.queue, a), BeatOf(beats, a), false, now);
  }

  lemma CappedLists(p: Pool, b: Address, k: nat, a: Address)
    ensures Part(Of(CapAccount(p, b, k).pending, a), Of(p.pending, a)) && CapAccount(p, b, k).queue == p.queue
  {
    LowestIn(Of(p.pending, b), k);
    hide TxsOf, Lowest, SetIfLower;
    OfWith(p.pending, b, Lowest(Of(p.pending, b), k), a);
  }

  lemma BeatSame(pend: Items, pend': Items, queued: Items, was: Option<nat>, put: bool, now: nat)
    requires Part(pend', pend)
    ensures BeatsWell(pend, pend', queued, queued, was, was, put, now)
  {}

  /** Going back to the queue: an account that had a heartbeat keeps it. */
  lemma BeatBack(pend: Items, pend': Items, queued: Items, back: Items, was: Option<nat>, now: nat)
    requires Part(pend', pend) && Part(back, pend) && pend'.Keys !! back.Keys
    ensures BeatsWell(pend, pend', queued, queued + back, was, if back == map[] || was.Some? then was else Some(now), false, now)
  {
    if back == map[] { assert queued + back == queued; } else { var n :| n in back; assert n in pend && n !in pend'; }
  }

  lemma TouchIs(beats: Beats, b: Address, now: nat, a: Address)
    ensures BeatOf(Touch(beats, b, now), a) == if a == b && a !in beats then Some(now) else BeatOf(beats, a)
    ensures BeatOf(Stopped(beats, b), a) == if a == b then None else BeatOf(beats, a)
  {}

  lemma BeatDropMeans(p: Pool, beats: Beats, tx: Tx, now: nat, a: Address)
    requires Inv(p)
    ensures var q := RemoveTx(p, tx);
      BeatsWell(Of(p.pending, a), Of(q.pending, a), Of(p.queue, a), Of(q.queue, a),
                BeatOf(beats, a), BeatOf(BeatDrop(p, beats, tx, now), a), false, now)
  {
    var pend, queued := Of(p.pending, tx.from), Of(p.queue, tx.from);
    var low, high, rest := Below(pend, tx.nonce), From(pend, tx.nonce + 1), Delete(queued, tx.nonce);
    TouchIs(beats, tx.from, now, a);
    OfWith(p.pending, tx.from, low, a);
    OfWith(p.pending, tx.from, pend, a);
    OfWith(p.queue, tx.from, queued + high, a);
    OfWith(p.queue, tx.from, rest, a);
    RemoveFinds(p, tx);
    assert Part(low, pend) && Part(high, pend) && low.Keys !! high.Keys;
    hide Inv, BeatsWell, Below, From, Delete, Belongs, SetIfLower, Of, Part, BeatOf;
    if tx !in p.known || a != tx.from {
      PartSelf(Of(p.pending, a));
      BeatSame(Of(p.pending, a), Of(p.pending, a), Of(p.queue, a), BeatOf(beats, a), false, now);
    } else if tx.nonce in pend {
      BeatBack(pend, low, queued, high, BeatOf(beats, a), now);
    } else {
      BeatLess(pend, queued, tx.nonce, BeatOf(beats, a), now);
    }
  }

  lemma RemoveFinds(p: Pool, tx: Tx)
    requires Inv(p)
    ensures tx in p.known && tx.nonce !in Of(p.pending, tx.from) ==> tx.nonce in Of(p.queue, tx.from)
  {
    if tx in p.known { RemoveFindsIt(p, tx); }
  }

  lemma PartSelf(m: Items)
    ensures Part(m, m)
  {}

  /** Leaving the queue: an emptied one loses its heartbeat. */
  lemma BeatLess(pend: Items, queued: Items, n: uint64, was: Option<nat>, now: nat)
    requires n in queued
    ensures BeatsWell(pend, pend, queued, Delete(queued, n), was, if Delete(queued, n) == map[] then None else was, false, now)
  {}

  lemma BeatPutMeans(p: Pool, beats: Beats, tx: Tx, c: Config, now: nat, a: Address)
    requires Inv(p)
    ensures var q := if tx in p.known then p else Insert(p, tx, c.priceBump).0;
      BeatsWell(Of(p.pending, a), Of(q.pending, a), Of(p.queue, a), Of(q.queue, a),
                BeatOf(beats, a), BeatOf(BeatPut(p, beats, tx, c, now), a), true, now)
  {
    PartSelf(Of(p.pending, a));
    if tx in p.known {
      BeatSame(Of(p.pending, a), Of(p.pending, a), Of(p.queue, a), BeatOf(beats, a), true, now);
      return;
    }
    InsertionMeans(p, tx, c.priceBump);
    PutNew(p, tx);
    TouchIs(beats, tx.from, now, a);
    hide Inv, BeatsWell, Insert, Replaces, Of, Part, Touch;
    var pend, queued := Of(p.pending, a), Of(p.queue, a);
    if a != tx.from || !Insert(p, tx, c.priceBump).1 {
      BeatSame(pend, pend, queued, BeatOf(beats, a), true, now);
    } else if tx.nonce in pend {
      BeatReplaced(pend, queued, tx, BeatOf(beats, a), now);
    } else {
      BeatQueued(pend, queued, tx, BeatOf(beats, a), now);
    }
  }

  lemma BeatReplaced(pend: Items, queued: Items, tx: Tx, was: Option<nat>, now: nat)
    requires tx.nonce in pend && pend[tx.nonce] != tx
    ensures BeatsWell(pend, pend[tx.nonce := tx], queued, queued, was, Some(now), true, now)
  {
    assert tx.nonce in pend[tx.nonce := tx];
  }

  lemma BeatQueued(pend: Items, queued: Items, tx: Tx, was: Option<nat>, now: nat)
    requires tx.nonce in queued ==> queued[tx.nonce] != tx
    ensures BeatsWell(pend, pend, queued, queued[tx.nonce := tx], was, if was.Some? then was else Some(now), true, now)
  {
    var r := queued[tx.nonce := tx];
    assert r[tx.nonce] == tx;
  }

  lemma PutNew(p: Pool, tx: Tx)
    requires tx !in p.known && Inv(p)
    ensures tx.nonce in Of(p.pending, tx.from) ==> Of(p.pending, tx.from)[tx.nonce] != tx
    ensures tx.nonce in Of(p.queue, tx.from) ==> Of(p.queue, tx.from)[tx.nonce] != tx
  {
    AccountInv(p, tx.from);
  }

  lemma BeatPromoteMeans(p: Pool, beats: Beats, b: Address, c: Config, now: nat, a: Address)
    requires Inv(p)
    ensures var q := PromoteAccount(p, b, c.accountQueue);
      BeatsWell(Of(p.pending, a), Of(q.pending, a), Of(p.queue, a), Of(q.queue, a),
                BeatOf(beats, a), BeatOf(BeatPromote(p, beats, b, c, now), a), false, now)
  {
    PromotedPending(p, b, c.accountQueue);
    PromotedQueue(p, b, c.accountQueue);
    ReadyIsNew(p, b);
    TouchIs(beats, b, now, a);
    TouchIs(beats[b := now], b, now, a);
    if b !in p.queue { NotQueued(p, b, c.accountQueue); }
    if a != b { PromoteOther(p, b, c.accountQueue, a); }
    PartSelf(Of(p.pending, a));
    hide Inv, BeatsWell, PromoteAccount, ReadyRun, LeftQueued, Of, Belongs, Part, Stopped;
    if b !in p.queue || a != b {
      BeatSame(Of(p.pending, a), Of(p.pending, a), Of(p.queue, a), BeatOf(beats, a), false, now);
    } else {
      BeatRenewed(Of(p.pending, a), ReadyRun(p, a), Of(p.queue, a), LeftQueued(p, a, c.accountQueue), BeatOf(beats, a), now);
    }
  }

  /** Promoting a run renews the heartbeat, and an emptied queue loses it. */
  lemma BeatRenewed(pend: Items, ready: Items, queued: Items, left: Items, was: Option<nat>, now: nat)
    requires ready.Keys !! pend.Keys && queued != map[]
    ensures BeatsWell(pend, pend + ready, queued, left, was,
                      if left == map[] then None else if ready == map[] then was else Some(now), false, now)
  {
    if ready == map[] {
      assert pend + ready == pend;
    } else {
      var n :| n in ready;
      assert n in pend + ready && n !in pend;
    }
  }

  lemma ReadyIsNew(p: Pool, a: Address)
    requires Inv(p)
    ensures ReadyRun(p, a).Keys !! Of(p.pending, a).Keys
    ensures a in p.queue ==> Of(p.queue, a) != map[]
  {
    SoundFacts(p, a);
    ReadyIsSound(p, a);
  }

  lemma BeatDemoteMeans(p: Pool, beats: Beats, b: Address, now: nat, a: Address)
    requires Inv(p)
    ensures var q := DemoteAccount(p, b);
      BeatsWell(Of(p.pending, a), Of(q.pending, a), Of(p.queue, a), Of(q.queue, a),
                BeatOf(beats, a), BeatOf(BeatDemote(p, beats, b, now), a), false, now)
  {
    DemotedLists(p, b);
    DemotedBack(p, b);
    TouchIs(beats, b, now, a);
    if b !in p.pending { NotPending(p, b); }
    if a != b { DemoteOther(p, b, a); }
    PartSelf(Of(p.pending, a));
    hide Inv, BeatsWell, DemoteAccount, Of, Part, LeftPending, Kept, Invalidated, Unmined, Touch;
    if b !in p.pending || a != b {
      BeatSame(Of(p.pending, a), Of(p.pending, a), Of(p.queue, a), BeatOf(beats, a), false, now);
    } else {
      var back := BackOf(p, a);
      BeatBack(Of(p.pending, a), LeftPending(p, a).0, Of(p.queue, a), back, BeatOf(beats, a), now);
    }
  }

  /** What demotion sends back to the queue. */
  function BackOf(p: Pool, a: Address): Items {
    var live := Unmined(p, a);
    var kept := Kept(live, true, p.chain.Balance(a), p.chain.maxGas);
    Invalidated(live, true, p.chain.Balance(a), p.chain.maxGas) + if kept != map[] && p.chain.Nonce(a) !in kept then kept else map[]
  }

  lemma DemotedBack(p: Pool, a: Address)
    ensures LeftPending(p, a).1 == Of(p.queue, a) + BackOf(p, a)
    ensures Part(LeftPending(p, a).0, Of(p.pending, a)) && Part(BackOf(p, a), Of(p.pending, a)) && LeftPending(p, a).0.Keys !! BackOf(p, a).Keys
    ensures var live := Unmined(p, a);
      var kept := Kept(live, true, p.chain.Balance(a), p.chain.maxGas);
      BackOf(p, a) == map[] <==>
        Invalidated(live, true, p.chain.Balance(a), p.chain.maxGas) == map[] && (kept == map[] || p.chain.Nonce(a) in kept)
  {
    var live := Unmined(p, a);
    FilterParts(Of(p.pending, a), p.chain.Nonce(a), p.chain.Balance(a), p.chain.maxGas);
    hide Kept, Invalidated, Of, From, Part;
    var kept, inval := Kept(live, true, p.chain.Balance(a), p.chain.maxGas), Invalidated(live, true, p.chain.Balance(a), p.chain.maxGas);
    SumEmpty(inval, kept);
    SumEmpty(inval, map[]);
    BothParts(Of(p.pending, a), inval, kept);
  }

  lemma BothParts(m: Items, x: Items, y: Items)
    requires Part(x, m) && Part(y, m)
    ensures Part(x + y, m) && Part(x + map[], m) && Part(map[], m) && (x + map[]).Keys == x.Keys
  {}

  lemma SumEmpty(x: Items, y: Items)
    ensures x + y == map[] <==> x == map[] && y == map[]
  {
    assert (x + y).Keys == x.Keys + y.Keys;
  }

  lemma FilterParts(m: Items, s: nat, balance: nat, maxGas: nat)
    ensures var kept, inval := Kept(From(m, s), true, balance, maxGas), Invalidated(From(m, s), true, balance, maxGas);
      Part(kept, m) && Part(inval, m) && kept.Keys !! inval.Keys
  {
    hide Payable;
  }

  /** The heartbeats after a sequence of edits. */
  function BeatAll(p: Pool, beats: Beats, es: seq<Edit>, c: Config, now: nat): Beats
    requires Inv(p)
    decreases |es|
  {
    if es == [] then beats
    else
      ApplyInv(p, es[0], c);
      BeatAll(Apply(p, es[0], c), Beat(p, beats, es[0], c, now), es[1..], c, now)
  }

  lemma {:induction false} BeatAppend(p: Pool, beats: Beats, xs: seq<Edit>, ys: seq<Edit>, c: Config, now: nat)
    requires Inv(p)
    ensures BeatAll(p, beats, xs + ys, c, now) == BeatAll(Replay(p, xs, c), BeatAll(p, beats, xs, c, now), ys, c, now)
    decreases |xs|
  {
    hide Inv, Apply, Beat;
    if xs == [] {
      assert xs + ys == ys;
    } else {
      ApplyInv(p, xs[0], c);
      assert (xs + ys)[1..] == xs[1..] + ys;
      BeatAppend(Apply(p, xs[0], c), Beat(p, beats, xs[0], c, now), xs[1..], ys, c, now);
    }
  }

  lemma BeatNone(p: Pool, beats: Beats, c: Config, now: nat)
    requires Inv(p)
    ensures BeatAll(p, beats, [], c, now) == beats
  {}

  lemma BeatOne(p: Pool, beats: Beats, e: Edit, c: Config, now: nat)
    requires Inv(p)
    ensures BeatAll(p, beats, [e], c, now) == Beat(p, beats, e, c, now)
  {
    ApplyInv(p, e, c);
    hide Inv, Apply, Beat;
    assert [e][1..] == [];
  }

  lemma BeatSnoc(p: Pool, beats: Beats, es: seq<Edit>, e: Edit, c: Config, now: nat)
    requires Inv(p)
    ensures BeatAll(p, beats, es + [e], c, now) == Beat(Replay(p, es, c), BeatAll(p, beats, es, c, now), e, c, now)
  {
    hide Inv, Apply, Beat;
    BeatAppend(p, beats, es, [e], c, now);
    BeatOne(Replay(p, es, c), BeatAll(p, beats, es, c, now), e, c, now);
  }

  lemma BeatDrops(p: Pool, beats: Beats, txs: seq<Tx>, c: Config, now: nat)
    requires Inv(p) && txs != []
    ensures Inv(RemoveTx(p, txs[0]))
    ensures BeatAll(p, beats, Drops(txs), c, now) == BeatAll(RemoveTx(p, txs[0]), BeatDrop(p, beats, txs[0], now), Drops(txs[1..]), c, now)
  {
    ApplyInv(p, Drop(txs[0]), c);
    hide Inv, RemoveTx, BeatDrop;
    assert Drops(txs)[1..] == Drops(txs[1..]);
  }

  lemma BeatNoDrops(p: Pool, beats: Beats, c: Config, now: nat)
    requires Inv(p)
    ensures BeatAll(p, beats, Drops([]), c, now) == beats
  {
    assert Drops([]) == [];
  }

  lemma BeatDropsSnoc(p: Pool, beats: Beats, txs: seq<Tx>, tx: Tx, c: Config, now: nat)
    requires Inv(p)
    ensures BeatAll(p, beats, Drops(txs + [tx]), c, now) == BeatDrop(RemoveAll(p, txs), BeatAll(p, beats, Drops(txs), c, now), tx, now)
  {
    assert Drops(txs + [tx]) == Drops(txs) + [Drop(tx)];
    hide Inv, RemoveAll, BeatDrop;
    DropsReplay(p, txs, c);
    BeatSnoc(p, beats, Drops(txs), Drop(tx), c, now);
  }

  lemma BeatDropsAppend(p: Pool, beats: Beats, xs: seq<Tx>, ys: seq<Tx>, c: Config, now: nat)
    requires Inv(p)
    ensures Inv(RemoveAll(p, xs))
    ensures BeatAll(p, beats, Drops(xs + ys), c, now) == BeatAll(RemoveAll(p, xs), BeatAll(p, beats, Drops(xs), c, now), Drops(ys), c, now)
  {
    assert Drops(xs + ys) == Drops(xs) + Drops(ys);
    hide Inv, RemoveAll;
    DropsReplay(p, xs, c);
    BeatAppend(p, beats, Drops(xs), Drops(ys), c, now);
  }

  /** Capping pending lists leaves the heartbeats alone. */
  lemma {:induction false} BeatCaps(p: Pool, beats: Beats, es: seq<Edit>, c: Config, now: nat)
    requires Inv(p) && AllCaps(es)
    ensures BeatAll(p, beats, es, c, now) == beats
    decreases |es|
  {
    if es != [] {
      ApplyInv(p, es[0], c);
      assert es[0] in es && forall e :: e in es[1..] ==> e in es;
      hide Inv, Apply;
      BeatCaps(Apply(p, es[0], c), beats, es[1..], c, now);
    }
  }
}
