/** TxPool: the pool itself, updating its structures one by one. Each method is proved to
    replay, on the pool's abstract value, the edits it reports. */
module TransactionPool {
  import opened Transactions
  import opened TxLists
  import opened Lookup
  import opened PricedLists
  import opened Noncer
  import opened PoolSpec
  import opened PoolSteady
  import opened Truncation
  import opened Heartbeats
  import Fates
  import opened PoolReorg

  datatype Error = AlreadyKnown | Invalid(reason: nat) | Underpriced | PoolOverflow | ReplaceUnderpriced

  class TxPool {
    const config: Config
    var gasPrice: nat
    var chain: Chain
    var locals: set<Address>
    var pending: Lists
    var queue: Lists
    var beats: Beats
    const all: TxLookup
    const priced: TxPricedList
    var pendingNonces: TxNoncer
    var changesSinceReorg: nat

    ghost function View(): Pool
      reads this, all, pendingNonces
    {
      Pool(pending, queue, all.locals + all.remotes, pendingNonces.nonces, chain, locals)
    }

    /** What add decides on. */
    ghost function Before(): Intake
      reads this, all, pendingNonces
    {
      Intake(View(), all.remotes, changesSinceReorg)
    }

    /** The parts fit together: one lookup, one state behind the virtual nonces. */
    ghost predicate Wired()
      reads this, all, priced, pendingNonces
    {
      all.Valid() && priced.Valid() && priced.all == all && pendingNonces.fallback == chain
    }

    /** Everything but the price index's coverage of the remote transactions. */
    ghost predicate Core()
      reads this, all, priced, pendingNonces
    {
      Wired() && Inv(View()) && queue.Keys <= beats.Keys
    }

    ghost predicate Valid()
      reads this, all, priced, pendingNonces
    {
      Core() && all.remotes <= priced.Tracked()
    }

    constructor (config: Config, chain: Chain, locals: set<Address>, gasPrice: nat)
      ensures Valid() && View() == EmptyPool.(chain := chain, locals := locals)
      ensures fresh(all) && fresh(priced) && fresh(pendingNonces)
    {
      this.config, this.chain, this.locals, this.gasPrice := config, chain, locals, gasPrice;
      pending, queue, beats := map[], map[], map[];
      var lookup := new TxLookup();
      all := lookup;
      priced := new TxPricedList(lookup);
      pendingNonces := new TxNoncer(chain);
      changesSinceReorg := 0;
    }

    /** enqueueTx: files tx in the queue, over a transaction of the same nonce if the price
        rule allows it. */
    method EnqueueTx(tx: Tx, local: bool, addAll: bool, now: nat) returns (replaced: bool, ok: bool)
      requires Wired() && queue.Keys <= beats.Keys
      requires addAll ==> tx !in all.locals + all.remotes
      modifies this`queue, this`beats, all, priced`stales, priced`urgent, priced`floating
      ensures Wired() && queue.Keys <= beats.Keys && BeatsKept(old(beats), beats, tx.from)
      ensures beats == if ok && tx.from !in old(beats) then old(beats)[tx.from := now] else old(beats)
      ensures var queued: Items := Of(old(queue), tx.from);
        && ok == !(tx.nonce in queued && !Replaces(queued[tx.nonce], tx, config.priceBump))
        && replaced == (ok && tx.nonce in queued)
        && queue == (if ok then old(queue)[tx.from := queued[tx.nonce := tx]] else old(queue))
        && all.locals + all.remotes == old(all.locals + all.remotes)
             - (if replaced then {queued[tx.nonce]} else {}) + (if ok && addAll then {tx} else {})
        && all.remotes == old(all.remotes)
             - (if replaced then {queued[tx.nonce]} else {}) + (if ok && addAll && !local then {tx} else {})
      ensures old(priced.Tracked()) * all.remotes <= priced.Tracked()
      ensures ok && addAll && !local ==> tx in priced.Tracked()
    {
      hide Replaces;
      var queued: Items := Of(queue, tx.from);
      if tx.nonce in queued && !Replaces(queued[tx.nonce], tx, config.priceBump) {
        return false, false;
      }
      queue := queue[tx.from := queued[tx.nonce := tx]];
      if tx.nonce in queued {
        all.Remove(queued[tx.nonce]);
        priced.Removed(1);
      }
      if addAll {
        all.Add(tx, local);
        priced.Put(tx, local);
      }
      if tx.from !in beats {
        beats := beats[tx.from := now];
      }
      return tx.nonce in queued, true;
    }

    /** Returns m's transactions to the queue, in whatever order they come. */
    method EnqueueAll(a: Address, m: Items, now: nat)
      requires Wired() && queue.Keys <= beats.Keys && Belongs(m, a) && m.Keys !! Of(queue, a).Keys
      requires a in queue ==> queue[a] != map[]
      modifies this`queue, this`beats, all, priced`stales, priced`urgent, priced`floating
      ensures Wired() && queue.Keys <= beats.Keys && BeatsKept(old(beats), beats, a)
      ensures queue == With(old(queue), a, Of(old(queue), a) + m)
      ensures beats == if m == map[] then old(beats) else Touch(old(beats), a, now)
      ensures all.locals + all.remotes == old(all.locals + all.remotes) && all.remotes == old(all.remotes)
      ensures old(priced.Tracked()) * all.remotes <= priced.Tracked()
    {
      hide Replaces, Of, With, Touch, BeatsKept, TxLookup.Valid, TxPricedList.Valid, TxPricedList.Tracked;
      ghost var q0, tracked := queue, priced.Tracked();
      WithNone(q0, a);
      NothingPlaced(q0, a, beats);
      var todo := m.Keys;
      ghost var placed: Items := map[];
      while todo != {}
        invariant todo <= m.Keys && placed.Keys == m.Keys - todo && (forall n :: n in placed ==> placed[n] == m[n])
        invariant Wired() && queue.Keys <= beats.Keys && BeatsKept(old(beats), beats, a)
        invariant queue == With(q0, a, Of(q0, a) + placed)
        invariant beats == if placed == map[] then old(beats) else Touch(old(beats), a, now)
        invariant all.locals + all.remotes == old(all.locals + all.remotes) && all.remotes == old(all.remotes)
        invariant tracked * all.remotes <= priced.Tracked()
        decreases todo
      {
        var n :| n in todo;
        EnqueueOne(q0, a, placed, n, m[n]);
        TouchNext(old(beats), beats, a, now, placed == map[]);
        var replaced, ok := EnqueueTx(m[n], false, false, now);
        placed := placed[n := m[n]];
        todo := todo - {n};
      }
      assert placed == m;
    }

    /** removeTx. */
    method RemoveTx(tx: Tx, outofbound: bool, now: nat)
      requires Core()
      modifies this`pending, this`queue, this`beats, all, priced`stales, priced`urgent, priced`floating, pendingNonces
      ensures Core() && View() == PoolSpec.RemoveTx(old(View()), tx) && BeatsKept(old(beats), beats, tx.from)
      ensures beats == BeatDrop(old(View()), old(beats), tx, now)
      ensures all.remotes == old(all.remotes) - {tx}
      ensures old(priced.Tracked()) * all.remotes <= priced.Tracked()
    {
      hide Inv, Of, With, Below, From, Delete, Belongs, Holds;
      ghost var p, tracked := View(), priced.Tracked();
      RemoveTxInv(p, tx);
      if all.Get(tx).None? {
        return;
      }
      RemoveReady(p, tx);
      all.Remove(tx);
      if outofbound {
        priced.Removed(1);
      }
      if tx.nonce in Of(pending, tx.from) {
        CutPending(tx, now);
      } else {
        DeleteQueued(tx);
      }
      assert View() == PoolSpec.RemoveTx(p, tx);
    }

    /** The pending branch of removeTx: cut the list at tx and requeue what follows it. */
    method CutPending(tx: Tx, now: nat)
      requires Wired() && queue.Keys <= beats.Keys && (tx.from in queue ==> queue[tx.from] != map[])
      requires Belongs(From(Of(pending, tx.from), tx.nonce + 1), tx.from)
      requires From(Of(pending, tx.from), tx.nonce + 1).Keys !! Of(queue, tx.from).Keys
      modifies this`pending, this`queue, this`beats, all, priced`stales, priced`urgent, priced`floating, pendingNonces
      ensures Wired() && queue.Keys <= beats.Keys && BeatsKept(old(beats), beats, tx.from)
      ensures var a, list := tx.from, Of(old(pending), tx.from);
        && pending == With(old(pending), a, Below(list, tx.nonce))
        && queue == With(old(queue), a, Of(old(queue), a) + From(list, tx.nonce + 1))
        && pendingNonces.nonces == SetIfLower(old(View()), a, tx.nonce)
        && beats == (if From(list, tx.nonce + 1) == map[] then old(beats) else Touch(old(beats), a, now))
      ensures all.locals + all.remotes == old(all.locals + all.remotes) && all.remotes == old(all.remotes)
      ensures old(priced.Tracked()) * all.remotes <= priced.Tracked()
    {
      hide Of, With, Below, From, Belongs;
      var list := Of(pending, tx.from);
      pending := With(pending, tx.from, Below(list, tx.nonce));
      EnqueueAll(tx.from, From(list, tx.nonce + 1), now);
      pendingNonces.SetIfLower(tx.from, tx.nonce);
    }

    /** The queue branch of removeTx; an emptied queue also forgets the heartbeat. */
    method DeleteQueued(tx: Tx)
      requires tx.from in queue && queue.Keys <= beats.Keys
      modifies this`queue, this`beats
      ensures queue == With(old(queue), tx.from, Delete(Of(old(queue), tx.from), tx.nonce))
      ensures queue.Keys <= beats.Keys && BeatsKept(old(beats), beats, tx.from)
      ensures beats == if Delete(Of(old(queue), tx.from), tx.nonce) == map[] then Stopped(old(beats), tx.from) else old(beats)
    {
      hide With, Delete;
      var rest := Delete(Of(queue, tx.from), tx.nonce);
      WithKeys(queue, tx.from, rest);
      queue := With(queue, tx.from, rest);
      if rest == map[] {
        beats := Stopped(beats, tx.from);
      }
    }

    /** Removes each of txs; the ones still missing from the price index must be among them. */
    method RemoveTxs(txs: seq<Tx>, outofbound: bool, now: nat)
      requires Core() && all.remotes <= priced.Tracked() + Members(txs)
      modifies this`pending, this`queue, this`beats, all, priced`stales, priced`urgent, priced`floating, pendingNonces
      ensures Valid() && View() == RemoveAll(old(View()), txs)
      ensures beats == BeatAll(old(View()), old(beats), Drops(txs), config, now)
      ensures all.remotes == old(all.remotes) - Members(txs)
    {
      hide Inv, PoolSpec.RemoveTx, BeatDrop, BeatAll;
      ghost var p := View();
      var i := 0;
      while i < |txs|
        invariant 0 <= i <= |txs| && Core()
        invariant RemoveAll(View(), txs[i..]) == RemoveAll(p, txs)
        invariant BeatAll(View(), beats, Drops(txs[i..]), config, now) == BeatAll(p, old(beats), Drops(txs), config, now)
        invariant all.remotes == old(all.remotes) - Members(txs[..i])
        invariant all.remotes <= priced.Tracked() + Members(txs[i..])
      {
        ghost var tracked := priced.Tracked();
        BeatDrops(View(), beats, txs[i..], config, now);
        RemoveTx(txs[i], outofbound, now);
        assert txs[i..][1..] == txs[i + 1..];
        MembersFirst(txs[i..]);
        MembersSnoc(txs, i);
        i := i + 1;
      }
      assert txs[..i] == txs && txs[i..] == [];
      BeatNoDrops(View(), beats, config, now);
    }

    /** How many slots must be freed before tx fits. */
    function Excess(tx: Tx): int reads all {
      all.slots + tx.NumSlots() - (config.globalSlots + config.globalQueue)
    }

    /** Why a full pool refuses tx, if it does. */
    ghost function RoomError(tx: Tx, isLocal: bool): Option<Error>
      reads this, all, priced, priced.all
    {
      if !isLocal && priced.Outbid(tx) then Some(Underpriced)
      else if changesSinceReorg > config.globalSlots / 4 then Some(PoolOverflow)
      else if !isLocal && Excess(tx) > SlotsOf(priced.LiveBag()) then Some(PoolOverflow)
      else None
    }

    /** The first half of add, for a full pool: evict underpriced remote transactions, or
        refuse. Nothing is evicted on refusal. */
    method MakeRoom(tx: Tx, isLocal: bool, now: nat) returns (err: Option<Error>, ghost drops: seq<Tx>)
      requires Valid()
      modifies this`pending, this`queue, this`beats, this`changesSinceReorg, all, priced`stales, priced`urgent, priced`floating, pendingNonces
      ensures Valid() && View() == RemoveAll(old(View()), drops)
      ensures err == old(RoomError(tx, isLocal))
      ensures err.Some? ==> drops == []
      ensures changesSinceReorg == old(changesSinceReorg) + |drops| && all.remotes == old(all.remotes) - Members(drops)
      ensures beats == BeatAll(old(View()), old(beats), Drops(drops), config, now)
      ensures err.None? ==> Evicted(old(priced.LiveBag()), drops, old(Excess(tx)))
      ensures err.None? && !isLocal && old(priced.Single()) ==> Excess(tx) <= 0
      ensures old(priced.Sorted()) ==> DropsCheapest(old(priced.baseFee), drops, old(all.remotes) - Members(drops))
      ensures forall t :: t in drops ==> t in old(all.remotes)
    {
      hide Inv, RemoveAll, TxLookup.Valid, TxPricedList.Valid, TxPricedList.Outbid, TxPricedList.LiveBag, TxPricedList.Single,
        SlotsOf, Entries, Evicted, BeatAll, Members;
      drops := [];
      RemoveNone(View());
      NoMembers();
      BeatNoDrops(View(), beats, config, now);
      SingleIsLive(priced);
      if !isLocal {
        ghost var tracked := priced.Tracked();
        var worse := priced.Underpriced(tx);
        StillTracked(tracked, priced.Tracked(), all.remotes);
        if worse {
          return Some(Underpriced), [];
        }
      }
      if changesSinceReorg > config.globalSlots / 4 {
        return Some(PoolOverflow), [];
      }
      err, drops := Evict(tx, isLocal, now);
    }

    /** Discards from the price index and kicks out what it gives up. */
    method Evict(tx: Tx, isLocal: bool, now: nat) returns (err: Option<Error>, ghost drops: seq<Tx>)
      requires Valid()
      modifies this`pending, this`queue, this`beats, this`changesSinceReorg, all, priced`stales, priced`urgent, priced`floating, pendingNonces
      ensures Valid() && View() == RemoveAll(old(View()), drops)
      ensures err == if !isLocal && old(Excess(tx)) > SlotsOf(old(priced.LiveBag())) then Some(PoolOverflow) else None
      ensures err.Some? ==> drops == []
      ensures changesSinceReorg == old(changesSinceReorg) + |drops| && all.remotes == old(all.remotes) - Members(drops)
      ensures beats == BeatAll(old(View()), old(beats), Drops(drops), config, now)
      ensures err.None? ==> Evicted(old(priced.LiveBag()), drops, old(Excess(tx)))
      ensures err.None? && !isLocal && old(priced.LiveBag()) == multiset(old(all.remotes)) ==> Excess(tx) <= 0
      ensures old(priced.Sorted()) ==> DropsCheapest(old(priced.baseFee), drops, old(all.remotes) - Members(drops))
      ensures forall t :: t in drops ==> t in old(all.remotes)
    {
      hide Inv, RemoveAll, TxLookup.Valid, TxPricedList.Valid, TxPricedList.LiveBag, SlotsOf, Ranked, FairEviction, DropsCheapest, Entries, Evicted, Members, BeatAll;
      ghost var p, live, excess := View(), priced.LiveBag(), Excess(tx);
      ghost var remotes, tracked := all.remotes, priced.Tracked();
      RemoveNone(p);
      NoMembers();
      BeatNoDrops(p, beats, config, now);
      SlotsKnown(all);
      var drop, success := priced.Discard(all.slots - (config.globalSlots + config.globalQueue) + tx.NumSlots(), isLocal);
      DropsAmong(priced.baseFee, drop, remotes, tracked, priced.Tracked());
      if !isLocal && !success {
        return Some(PoolOverflow), [];
      }
      EvictedIs(live, priced.LiveBag(), drop, excess);
      changesSinceReorg := changesSinceReorg + |drop|;
      RemoveAllInv(p, drop);
      RemoveTxs(drop, false, now);
      SlotsKnown(all);
      RoomMade(remotes, p.known, live, drop, excess);
      return None, drop;
    }

    /** Puts tx in the place of prev on the pending list. */
    method SwapPending(prev: Tx, tx: Tx, isLocal: bool, now: nat)
      requires Wired() && queue.Keys <= beats.Keys
      requires tx !in all.locals + all.remotes
      modifies this`pending, this`beats, all, priced`stales, priced`urgent, priced`floating
      ensures Wired() && queue.Keys <= beats.Keys && beats == old(beats)[tx.from := now]
      ensures pending == old(pending)[tx.from := Of(old(pending), tx.from)[tx.nonce := tx]]
      ensures all.locals + all.remotes == old(all.locals + all.remotes) - {prev} + {tx}
      ensures all.remotes == old(all.remotes) - {prev} + if isLocal then {} else {tx}
      ensures old(priced.Tracked()) * all.remotes <= priced.Tracked()
      ensures !isLocal ==> tx in priced.Tracked()
    {
      pending := pending[tx.from := Of(pending, tx.from)[tx.nonce := tx]];
      all.Remove(prev);
      priced.Removed(1);
      all.Add(tx, isLocal);
      priced.Put(tx, isLocal);
      beats := beats[tx.from := now];
    }

    /** The second half of add: replace a pending transaction, or queue the new one. */
    method Place(tx: Tx, isLocal: bool, now: nat) returns (replaced: bool, ok: bool)
      requires Valid() && tx !in all.locals + all.remotes
      modifies this`pending, this`queue, this`beats, all, priced`stales, priced`urgent, priced`floating
      ensures Valid() && (View(), ok) == Insert(old(View()), tx, config.priceBump)
      ensures replaced == (ok && (tx.nonce in Of(old(pending), tx.from) || tx.nonce in Of(old(queue), tx.from)))
      ensures ok ==> (tx in all.remotes <==> !isLocal) && all.slots <= old(all.slots) + tx.NumSlots()
      ensures all.remotes == old(all.remotes) * (all.locals + all.remotes) + if ok && !isLocal then {tx} else {}
      ensures beats == BeatPut(old(View()), old(beats), tx, config, now)
    {
      hide *;
      if tx.nonce in Of(pending, tx.from) {
        ok := PlacePending(tx, isLocal, now);
        replaced := ok;
      } else {
        replaced, ok := PlaceQueued(tx, isLocal, now);
      }
    }

    /** ... over a pending transaction of the same nonce. */
    method PlacePending(tx: Tx, isLocal: bool, now: nat) returns (ok: bool)
      requires Valid() && tx !in all.locals + all.remotes && tx.nonce in Of(pending, tx.from)
      modifies this`pending, this`queue, this`beats, all, priced`stales, priced`urgent, priced`floating
      ensures Valid() && (View(), ok) == Insert(old(View()), tx, config.priceBump)
      ensures ok ==> (tx in all.remotes <==> !isLocal) && all.slots <= old(all.slots) + tx.NumSlots()
      ensures all.remotes == old(all.remotes) * (all.locals + all.remotes) + if ok && !isLocal then {tx} else {}
      ensures beats == BeatPut(old(View()), old(beats), tx, config, now)
    {
      ghost var p, b := View(), beats;
      SlotsKnown(all);
      InsertInv(p, tx, config.priceBump);
      hide Inv, Replaces, Of, Insert, SlotSum, BeatsKept, BeatPut, TxLookup.Valid, TxPricedList.Valid, TxPricedList.Tracked;
      var prev := Of(pending, tx.from)[tx.nonce];
      if !Replaces(prev, tx, config.priceBump) {
        InsertRefuses(p, tx, config.priceBump);
        PutBeats(p, b, tx, config, now);
        return false;
      }
      SwapPending(prev, tx, isLocal, now);
      InsertReplaces(p, View(), tx, config.priceBump);
      PutBeats(p, b, tx, config, now);
      SlotsKnown(all);
      SlotsGrow(p.known, View().known, tx);
      return true;
    }

    /** ... or on the queue. */
    method PlaceQueued(tx: Tx, isLocal: bool, now: nat) returns (replaced: bool, ok: bool)
      requires Valid() && tx !in all.locals + all.remotes && tx.nonce !in Of(pending, tx.from)
      modifies this`pending, this`queue, this`beats, all, priced`stales, priced`urgent, priced`floating
      ensures Valid() && (View(), ok) == Insert(old(View()), tx, config.priceBump)
      ensures replaced == (ok && tx.nonce in Of(old(queue), tx.from))
      ensures ok ==> (tx in all.remotes <==> !isLocal) && all.slots <= old(all.slots) + tx.NumSlots()
      ensures all.remotes == old(all.remotes) * (all.locals + all.remotes) + if ok && !isLocal then {tx} else {}
      ensures beats == BeatPut(old(View()), old(beats), tx, config, now)
    {
      ghost var p, b := View(), beats;
      SlotsKnown(all);
      InsertInv(p, tx, config.priceBump);
      hide Inv, Replaces, Of, Insert, SlotSum, BeatsKept, BeatPut, TxLookup.Valid, TxPricedList.Valid, TxPricedList.Tracked;
      replaced, ok := EnqueueTx(tx, isLocal, true, now);
      InsertQueues(p, View(), tx, ok, config.priceBump);
      PutBeats(p, b, tx, config, now);
      SlotsKnown(all);
      SlotsGrow(p.known, View().known, tx);
    }

    /** Makes an account local, and its remote transactions with it. */
    method MarkSender(a: Address)
      requires Valid()
      modifies this`locals, all, priced`stales, priced`urgent, priced`floating
      ensures Valid() && View() == old(View()).(locals := old(locals) + {a})
      ensures all.remotes == set t | t in old(all.remotes) && t.from !in locals
      ensures all.slots == old(all.slots)
    {
      hide WellPlaced, Of;
      ghost var p := View();
      SlotsKnown(all);
      locals := locals + {a};
      var migrated := all.RemoteToLocals(locals);
      priced.Removed(migrated);
      SlotsKnown(all);
      InvFrame(p, View());
    }

    /** The first half of add: a full pool makes room, or refuses. */
    method ClearRoom(tx: Tx, isLocal: bool, now: nat) returns (err: Option<Error>, ghost drops: seq<Tx>)
      requires Valid()
      modifies this`pending, this`queue, this`beats, this`changesSinceReorg, all, priced`stales, priced`urgent, priced`floating, pendingNonces
      ensures Valid() && View() == RemoveAll(old(View()), drops)
      ensures err == if old(Excess(tx)) > 0 then old(RoomError(tx, isLocal)) else None
      ensures err.Some? ==> drops == []
      ensures changesSinceReorg == old(changesSinceReorg) + |drops| && all.remotes == old(all.remotes) - Members(drops)
      ensures beats == BeatAll(old(View()), old(beats), Drops(drops), config, now)
      ensures Clears(old(Before()), old(priced.baseFee), tx, !isLocal, err.Some?, drops, config)
      ensures if old(Excess(tx)) <= 0 then drops == [] else err.None? ==> Evicted(old(priced.LiveBag()), drops, old(Excess(tx)))
      ensures err.None? && !isLocal && (old(Excess(tx)) > 0 ==> old(priced.Single())) ==> Excess(tx) <= 0
      ensures Members(drops) <= old(all.remotes) && forall t :: t in drops ==> t in old(all.remotes)
      ensures err.Some? ==> err.value.Underpriced? || err.value.PoolOverflow?
      ensures old(priced.Sorted()) ==> DropsCheapest(old(priced.baseFee), drops, old(all.remotes) - Members(drops))
    {
      hide Inv, RemoveAll, Evicted, Frees, SlotsOf, SlotSum, Missing, MayBeOutbid, MustBeOutbid, BeatAll, Members,
        TxPricedList.Outbid, TxPricedList.LiveBag, TxPricedList.Single, TxLookup.Valid;
      err, drops := None, [];
      RemoveNone(View());
      NoMembers();
      BeatNoDrops(View(), beats, config, now);
      RoomErrorMeans(tx, isLocal);
      if all.slots + tx.NumSlots() > config.globalSlots + config.globalQueue {
        ghost var live, remotes, excess := priced.LiveBag(), all.remotes, Excess(tx);
        err, drops := MakeRoom(tx, isLocal, now);
        if err.None? { EvictedFrees(live, remotes, drops, excess); }
        MembersWithin(drops, remotes);
      }
    }

    /** add: the outcome, the evicted transactions, and whether the sender became local. */
    method AddTx(tx: Tx, local: bool, invalid: Option<nat>, now: nat)
      returns (replaced: bool, err: Option<Error>, ghost step: Admission, ghost drops: seq<Tx>, ghost trace: seq<Edit>)
      requires Valid()
      modifies this`pending, this`queue, this`beats, this`locals, this`changesSinceReorg, all, priced`stales, priced`urgent, priced`floating, pendingNonces
      ensures Valid() && View() == Replay(old(View()), trace, config)
      ensures AllInject(trace) && beats == BeatAll(old(View()), old(beats), trace, config, now)
      ensures Admits(old(Before()), old(priced.baseFee), Candidate(tx, invalid), local, step, config)
      ensures trace == Taking(old(View()), tx, step, config) + if locals != old(locals) then [MarkLocal(tx.from)] else []
      ensures step == if err.None? || err == Some(ReplaceUnderpriced) then Offered(drops) else Refused
      ensures !local ==> Before() == Admit(old(Before()), tx, step, config)
      ensures !local || err.Some? ==> locals == old(locals)
      ensures changesSinceReorg == old(changesSinceReorg) + |drops|
      ensures var full, roomError := old(Excess(tx)) > 0, old(RoomError(tx, local || tx.from in locals));
        err == (if tx in old(all.locals + all.remotes) then Some(AlreadyKnown)
                else if invalid.Some? then Some(Invalid(invalid.value))
                else if full && roomError.Some? then roomError
                else if Insert(RemoveAll(old(View()), drops), tx, config.priceBump).1 then None
                else Some(ReplaceUnderpriced))
      ensures err.Some? && err != Some(ReplaceUnderpriced) ==> trace == [] && drops == []
      ensures err == Some(ReplaceUnderpriced) ==> trace == Drops(drops)
      ensures err.None? ==>
        && trace == Drops(drops) + [Put(tx)] + (if locals != old(locals) then [MarkLocal(tx.from)] else [])
        && locals == old(locals) + (if local && !(tx.nonce in Of(RemoveAll(old(View()), drops).pending, tx.from)) then {tx.from} else {})
        && tx in all.locals + all.remotes && (tx in all.remotes <==> !(local || tx.from in old(locals)))
      ensures old(Excess(tx)) <= 0 ==> drops == []
      ensures old(Excess(tx)) > 0 && (err.None? || err == Some(ReplaceUnderpriced)) ==>
        Evicted(old(priced.LiveBag()), drops, old(Excess(tx)))
      ensures err.None? && !(local || tx.from in old(locals)) && (old(Excess(tx)) > 0 ==> old(priced.Single())) ==>
        all.slots <= config.globalSlots + config.globalQueue
      ensures forall t :: t in drops ==> t in old(all.remotes)
      ensures old(priced.Sorted()) ==> DropsCheapest(old(priced.baseFee), drops, old(all.remotes) - Members(drops))
    {
      hide Inv, RemoveAll, Insert, Of, Replay, AllInject, Evicted, Clears, SlotsOf, Admit, BeatAll, BeatPut, Members, Taking,
        RoomError, TxPricedList.LiveBag, TxPricedList.Single, TxLookup.Valid;
      ghost var i0, p, b0 := Before(), View(), beats;
      drops, trace, step := [], [], Refused;
      TurnedAway(p, b0, tx, config, now);
      TakingInjects(p, tx, Refused, tx.from, config);
      RefusalAdmits(i0, tx, config);
      if all.Get(tx).Some? {
        return false, Some(AlreadyKnown), Refused, [], [];
      }
      if invalid.Some? {
        return false, Some(Invalid(invalid.value)), Refused, [], [];
      }
      var isLocal := local || tx.from in locals;
      err, drops := ClearRoom(tx, isLocal, now);
      RemoveAllInv(p, drops);
      if err.Some? {
        RemoveNone(p);
        BeatNoDrops(p, b0, config, now);
        return false, err, Refused, [], [];
      }
      step := Offered(drops);
      OfferReplays(p, b0, tx, drops, config, now);
      TakingInjects(p, tx, step, tx.from, config);
      var ok;
      replaced, ok := Enter(tx, local, now);
      trace := Taking(p, tx, step, config);
      if !local { OfferAdmits(i0, tx, drops, all.remotes, config); }
      if !ok {
        return false, Some(ReplaceUnderpriced), step, drops, trace;
      }
      if locals != i0.pool.locals {
        MarkReplays(p, b0, trace, tx.from, Insert(RemoveAll(p, drops), tx, config.priceBump).0, config, now);
        trace := trace + [MarkLocal(tx.from)];
      }
      err := None;
    }

    /** The rest of add: the transaction goes in if the price rule allows, and its sender
        becomes local. */
    method Enter(tx: Tx, local: bool, now: nat) returns (replaced: bool, ok: bool)
      requires Valid() && tx !in all.locals + all.remotes
      modifies this`pending, this`queue, this`beats, this`locals, all, priced`stales, priced`urgent, priced`floating
      ensures Valid() && ok == Insert(old(View()), tx, config.priceBump).1
      ensures View() == Insert(old(View()), tx, config.priceBump).0.(locals := locals)
      ensures locals == old(locals) + (if ok && local && tx.nonce !in Of(old(pending), tx.from) then {tx.from} else {})
      ensures ok ==> (tx in all.remotes <==> !(local || tx.from in old(locals))) && all.slots <= old(all.slots) + tx.NumSlots()
      ensures !local ==> all.remotes == old(all.remotes) * (all.locals + all.remotes) + if ok && tx.from !in locals then {tx} else {}
      ensures beats == BeatPut(old(View()), old(beats), tx, config, now)
    {
      hide Inv, Insert, Of, BeatPut, TxLookup.Valid, TxPricedList.Valid, TxPricedList.Tracked;
      var isLocal := local || tx.from in locals;
      var fromPending := tx.nonce in Of(pending, tx.from);
      InsertMeans(View(), tx, config);
      replaced, ok := Place(tx, isLocal, now);
      if ok && !fromPending && local && tx.from !in locals {
        MarkSender(tx.from);
      }
    }

    /** What a full pool's answer says about the remote transactions, given that each has an
        entry in the price index. */
    lemma RoomErrorMeans(tx: Tx, isLocal: bool)
      requires Valid()
      ensures Excess(tx) == Missing(View(), tx, config)
      ensures RoomError(tx, isLocal).Some? ==>
        || changesSinceReorg > config.globalSlots / 4
        || (!isLocal && (MayBeOutbid(all.remotes, priced.baseFee, tx) || Excess(tx) > SlotSum(all.remotes)))
      ensures RoomError(tx, isLocal).None? ==>
        changesSinceReorg <= config.globalSlots / 4 && (!isLocal ==> !MustBeOutbid(all.remotes, priced.baseFee, tx))
      ensures forall t :: t in priced.LiveBag() <==> t in all.remotes
    {
      hide Inv, SlotsOf, SlotSum, Live, Cheaper;
      LiveCovers(priced.urgent, priced.floating, all.remotes);
      assert forall t :: t in all.remotes ==> t in priced.urgent || t in priced.floating;
    }

    /** Takes m's transactions out of the lookup, in whatever order they come. */
    method Forget(m: Items)
      requires all.Valid()
      modifies all
      ensures all.Valid() && all.remotes == old(all.remotes) - TxsOf(m)
      ensures all.locals + all.remotes == old(all.locals + all.remotes) - TxsOf(m)
    {
      var todo := m.Keys;
      ghost var gone: Items := map[];
      while todo != {}
        invariant todo <= m.Keys && gone.Keys == m.Keys - todo && (forall n :: n in gone ==> gone[n] == m[n])
        invariant all.Valid() && all.locals == old(all.locals) - TxsOf(gone) && all.remotes == old(all.remotes) - TxsOf(gone)
        decreases todo
      {
        var n :| n in todo;
        all.Remove(m[n]);
        PutTxs(gone, n, m[n]);
        gone := gone[n := m[n]];
        todo := todo - {n};
      }
      assert gone == m;
      assert all.locals + all.remotes == old(all.locals + all.remotes) - TxsOf(m);
    }

    /** promoteTx. */
    method PromoteTx(a: Address, tx: Tx, now: nat) returns (ok: bool)
      requires Wired()
      modifies this`pending, this`beats, all, priced`stales, priced`urgent, priced`floating, pendingNonces
      ensures Wired() && beats == if ok then old(beats)[a := now] else old(beats)
      ensures var list: Items := Of(old(pending), a);
        && ok == !(tx.nonce in list && !Replaces(list[tx.nonce], tx, config.priceBump))
        && pending == (if ok then old(pending)[a := list[tx.nonce := tx]] else old(pending))
        && all.locals == old(all.locals) - (if !ok then {tx} else if tx.nonce in list then {list[tx.nonce]} else {})
        && all.remotes == old(all.remotes) - (if !ok then {tx} else if tx.nonce in list then {list[tx.nonce]} else {})
        && pendingNonces.nonces == (if ok then old(pendingNonces.nonces)[a := Next(tx.nonce)] else old(pendingNonces.nonces))
      ensures old(priced.Tracked()) * all.remotes <= priced.Tracked()
    {
      hide Replaces, Of;
      var list: Items := Of(pending, a);
      if tx.nonce in list && !Replaces(list[tx.nonce], tx, config.priceBump) {
        all.Remove(tx);
        priced.Removed(1);
        return false;
      }
      pending := pending[a := list[tx.nonce := tx]];
      if tx.nonce in list {
        all.Remove(list[tx.nonce]);
        priced.Removed(1);
      }
      pendingNonces.Set(a, Next(tx.nonce));
      beats := beats[a := now];
      return true;
    }

    /** Promotes a ready run by increasing nonce. As it shares no nonce with the pending list,
        promoteTx never finds an older transaction to prefer. */
    method PromoteRun(a: Address, ready: Items, now: nat)
      requires Wired() && Belongs(ready, a) && ready.Keys !! Of(pending, a).Keys
      requires a in pending ==> pending[a] != map[]
      modifies this`pending, this`beats, all, priced`stales, priced`urgent, priced`floating, pendingNonces
      ensures Wired() && beats == if ready == map[] then old(beats) else old(beats)[a := now]
      ensures pending == With(old(pending), a, Of(old(pending), a) + ready)
      ensures all.locals == old(all.locals) && all.remotes == old(all.remotes)
      ensures pendingNonces.nonces ==
        if ready == map[] then old(pendingNonces.nonces) else old(pendingNonces.nonces)[a := Next(MaxKey(ready))]
      ensures old(priced.Tracked()) * all.remotes <= priced.Tracked()
    {
      hide Replaces, Of, With, Delete, Halves, TxLookup.Valid, TxPricedList.Valid, TxPricedList.Tracked;
      ghost var p0, tracked := pending, priced.Tracked();
      WithNone(p0, a);
      var todo := ready;
      ghost var done: Items := map[];
      HalvesEnds(ready);
      while todo != map[]
        invariant Halves(ready, done, todo)
        invariant Wired() && beats == if done == map[] then old(beats) else old(beats)[a := now]
        invariant pending == With(p0, a, Of(p0, a) + done)
        invariant all.locals == old(all.locals) && all.remotes == old(all.remotes)
        invariant pendingNonces.nonces == if done == map[] then old(pendingNonces.nonces) else old(pendingNonces.nonces)[a := Next(MaxKey(done))]
        invariant tracked * all.remotes <= priced.Tracked()
        decreases |todo|
      {
        var n := MinKey(todo);
        MoveMin(ready, done, todo, n);
        EnqueueOne(p0, a, done, n, ready[n]);
        var ok := PromoteTx(a, ready[n], now);
        done := done[n := ready[n]];
        todo := Delete(todo, n);
      }
    }

    /** Drops a's mined and unpayable queued transactions from the lookup. */
    method DropUnsound(a: Address) returns (list: Items, count: nat)
      requires all.Valid()
      modifies all
      ensures all.Valid() && all.remotes <= old(all.remotes) && list == old(Sound(View(), a))
      ensures all.locals + all.remotes == old(all.locals + all.remotes)
        - TxsOf(Below(Of(queue, a), chain.Nonce(a)))
        - TxsOf(Unpayables(From(Of(queue, a), chain.Nonce(a)), chain.Balance(a), chain.maxGas))
    {
      hide Of, Below, From, TxsOf, Payables, Unpayables;
      var queued := Of(queue, a);
      var forwards := Below(queued, chain.Nonce(a));
      list := From(queued, chain.Nonce(a));
      Forget(forwards);
      var drops := Unpayables(list, chain.Balance(a), chain.maxGas);
      list := Payables(list, chain.Balance(a), chain.maxGas);
      Forget(drops);
      count := |forwards| + |drops|;
    }

    /** Stores what is left of a's queued list, capped unless the account is local. */
    method StoreQueued(a: Address, list: Items, dropped: nat)
      requires a in queue && Wired() && queue.Keys <= beats.Keys
      modifies this`queue, this`beats, all, priced`stales, priced`urgent, priced`floating
      ensures Wired() && queue.Keys <= beats.Keys && all.remotes <= old(all.remotes)
      ensures queue == With(old(queue), a, if a in locals then list else Lowest(list, config.accountQueue))
      ensures beats == if (if a in locals then list else Lowest(list, config.accountQueue)) == map[] then Stopped(old(beats), a) else old(beats)
      ensures all.locals + all.remotes == old(all.locals + all.remotes)
        - if a in locals then {} else TxsOf(Cut(list, config.accountQueue))
      ensures old(priced.Tracked()) * all.remotes <= priced.Tracked()
    {
      hide With, Lowest, Cut, TxsOf, TxLookup.Valid, TxPricedList.Valid, TxPricedList.Tracked;
      var kept, caps := list, 0;
      if a !in locals {
        kept, caps := Lowest(list, config.accountQueue), |Cut(list, config.accountQueue)|;
        Forget(Cut(list, config.accountQueue));
      }
      priced.Removed(dropped + caps);
      WithKeys(queue, a, kept);
      queue := With(queue, a, kept);
      if kept == map[] {
        beats := Stopped(beats, a);
      }
    }

    /** promoteExecutables, for one account. */
    method PromoteOne(a: Address, now: nat)
      requires Valid()
      modifies this`pending, this`queue, this`beats, all, priced`stales, priced`urgent, priced`floating, pendingNonces
      ensures Valid() && View() == PromoteAccount(old(View()), a, config.accountQueue)
      ensures beats == BeatPromote(old(View()), old(beats), a, config, now)
    {
      hide Inv, Of, With, Below, From, Lowest, Cut, TxsOf, Unpayables, Belongs, RunOf, Sound, PromoteAccount, BeatPromote, Stopped,
        TxLookup.Valid, TxPricedList.Valid, TxPricedList.Tracked;
      ghost var p := View();
      PromoteInv(p, a, config.accountQueue);
      PromoteBeats(p, beats, a, config, now);
      if a !in queue {
        PromoteNothing(p, a, config.accountQueue);
        return;
      }
      PromoteReady(p, a);
      var list, dropped := DropUnsound(a);
      var v := pendingNonces.Get(a);
      var end := RunOf(list, v);
      PromoteRun(a, Below(list, end), now);
      StoreQueued(a, From(list, end), dropped);
      PromoteIs(p, a, config.accountQueue, View());
    }

    /** promoteExecutables. */
    method PromoteExecutables(accounts: seq<Address>, now: nat)
      requires Valid()
      modifies this`pending, this`queue, this`beats, all, priced`stales, priced`urgent, priced`floating, pendingNonces
      ensures Valid() && View() == Replay(old(View()), Promotions(accounts), config)
      ensures beats == BeatAll(old(View()), old(beats), Promotions(accounts), config, now)
    {
      hide Inv, PromoteAccount, Replay, BeatAll, BeatPromote;
      ghost var p, b := View(), beats;
      ReplayNone(p, config);
      BeatNone(p, b, config, now);
      assert Promotions(accounts[..0]) == [];
      for i := 0 to |accounts|
        invariant Valid() && View() == Replay(p, Promotions(accounts[..i]), config)
        invariant beats == BeatAll(p, b, Promotions(accounts[..i]), config, now)
      {
        PromoteOne(accounts[i], now);
        ReplaySnoc(p, Promotions(accounts[..i]), Promote(accounts[i]), config);
        BeatSnoc(p, b, Promotions(accounts[..i]), Promote(accounts[i]), config, now);
        assert Promotions(accounts[..i + 1]) == Promotions(accounts[..i]) + [Promote(accounts[i])];
      }
      assert accounts[..|accounts|] == accounts;
    }

    /** Drops a's mined and unpayable pending transactions from the lookup, and separates
        those that are no longer executable because of it. */
    method DropUnpayable(a: Address) returns (kept: Items, invalids: Items)
      requires all.Valid()
      modifies all
      ensures all.Valid() && all.remotes <= old(all.remotes)
      ensures kept == old(Kept(Unmined(View(), a), true, chain.Balance(a), chain.maxGas))
      ensures invalids == old(Invalidated(Unmined(View(), a), true, chain.Balance(a), chain.maxGas))
      ensures all.locals + all.remotes == old(all.locals + all.remotes)
        - TxsOf(Below(Of(pending, a), chain.Nonce(a)))
        - TxsOf(Unpayables(From(Of(pending, a), chain.Nonce(a)), chain.Balance(a), chain.maxGas))
    {
      hide Of, Below, From, TxsOf, Unpayables, Kept, Invalidated;
      var list := Of(pending, a);
      var olds := Below(list, chain.Nonce(a));
      list := From(list, chain.Nonce(a));
      Forget(olds);
      var drops := Unpayables(list, chain.Balance(a), chain.maxGas);
      kept := Kept(list, true, chain.Balance(a), chain.maxGas);
      invalids := Invalidated(list, true, chain.Balance(a), chain.maxGas);
      Forget(drops);
    }

    /** demoteUnexecutables, for one account. */
    method DemoteOne(a: Address, now: nat)
      requires Valid() && a in pending
      modifies this`pending, this`queue, this`beats, all, priced`stales, priced`urgent, priced`floating, pendingNonces
      ensures Valid() && View() == DemoteAccount(old(View()), a)
      ensures beats == BeatDemote(old(View()), old(beats), a, now)
    {
      hide Inv, Of, With, Below, From, TxsOf, Unpayables, Kept, Invalidated, Belongs, DemoteAccount, BeatDemote, Touch, BeatsKept,
        TxLookup.Valid, TxPricedList.Valid, TxPricedList.Tracked;
      ghost var p := View();
      DemoteBeats(p, beats, a, now);
      DemoteInv(p, a);
      DemoteReady(p, a);
      var kept, invalids := DropUnpayable(a);
      EnqueueAll(a, invalids, now);
      if kept != map[] && chain.Nonce(a) !in kept {
        QueueTwice(p.queue, a, invalids, kept);
        EnqueueAll(a, kept, now);
        kept := map[];
      }
      pending := With(pending, a, kept);
      DemoteIs(p, a, View());
    }

    /** demoteUnexecutables, visiting the pending accounts in any order. */
    method DemoteUnexecutables(now: nat) returns (ghost accounts: seq<Address>)
      requires Valid()
      modifies this`pending, this`queue, this`beats, all, priced`stales, priced`urgent, priced`floating, pendingNonces
      ensures Valid() && View() == Replay(old(View()), Demotions(accounts), config)
      ensures beats == BeatAll(old(View()), old(beats), Demotions(accounts), config, now)
      ensures Distinct(accounts) && forall a :: a in old(pending) ==> a in accounts
    {
      hide Inv, DemoteAccount, Replay, Distinct, BeatAll, BeatDemote;
      ghost var p, b := View(), beats;
      ReplayNone(p, config);
      BeatNone(p, b, config, now);
      accounts := [];
      assert Demotions(accounts) == [];
      NoneTwice();
      var todo := pending.Keys;
      while todo != {}
        invariant todo <= pending.Keys && forall a :: a in p.pending ==> a in todo || a in accounts
        invariant Distinct(accounts) && forall a :: a in accounts ==> a !in todo
        invariant Valid() && View() == Replay(p, Demotions(accounts), config)
        invariant beats == BeatAll(p, b, Demotions(accounts), config, now)
        decreases todo
      {
        var a :| a in todo;
        ghost var q := View();
        DemoteOne(a, now);
        ReplaySnoc(p, Demotions(accounts), Demote(a), config);
        BeatSnoc(p, b, Demotions(accounts), Demote(a), config, now);
        assert Demotions(accounts + [a]) == Demotions(accounts) + [Demote(a)];
        DemoteKeys(q, a);
        OnceMore(accounts, a);
        accounts := accounts + [a];
        todo := todo - {a};
      }
    }

    /** Drops the last pending transaction of a, the body of truncatePending's inner loops. */
    method CapOne(a: Address)
      requires Valid() && a in pending && |pending[a]| > 1
      modifies this`pending, all, priced`stales, priced`urgent, priced`floating, pendingNonces
      ensures Valid() && View() == CapAccount(old(View()), a, old(|pending[a]|) - 1)
    {
      hide Inv, With, Lowest, Cut, TxsOf, TxLookup.Valid, TxPricedList.Valid, TxPricedList.Tracked;
      ghost var p := View();
      var list := pending[a];
      CapInv(p, a, |list| - 1);
      var caps := Cut(list, |list| - 1);
      CutOne(list);
      Forget(caps);
      pendingNonces.SetIfLower(a, MinKey(caps));
      pending := With(pending, a, Lowest(list, |list| - 1));
      priced.Removed(|caps|);
    }

    /** One equalising pass over the offenders, all of which have k + 1 transactions. */
    method CapPass(offenders: seq<Address>, ghost k: nat, count: nat) returns (left: int)
      requires Valid() && k > 0 && count == Total(pending)
      requires forall i, j :: 0 <= i < j < |offenders| ==> offenders[i] != offenders[j]
      requires forall a :: a in offenders ==> a in pending && |pending[a]| == k + 1
      modifies this`pending, all, priced`stales, priced`urgent, priced`floating, pendingNonces
      ensures Valid() && View() == Replay(old(View()), Caps(offenders, k), config)
      ensures pending == CapOn(old(pending), Members(offenders), k)
      ensures left == count - |offenders| == Total(pending)
    {
      hide Inv, Replay, CapOn, CapAccount, Total, Members, Caps, With, Lowest, Cut, TxLookup.Valid, TxPricedList.Valid, TxPricedList.Tracked;
      ghost var p := View();
      left := count;
      CapNone(p, offenders, k, config);
      for i := 0 to |offenders|
        invariant Valid() && View() == Replay(p, Caps(offenders[..i], k), config)
        invariant pending == CapOn(p.pending, Members(offenders[..i]), k)
        invariant left == count - i == Total(pending)
      {
        var a := offenders[i];
        ghost var q := View();
        PassReady(p.pending, offenders, i, k);
        CapOne(a);
        CapAccountIs(q, a, k);
        ReplaySnoc(p, Caps(offenders[..i], k), Cap(a, k), config);
        CapsNext(offenders, i, k);
        left := left - 1;
      }
      assert offenders[..|offenders|] == offenders;
    }

    /** Lowers the offenders together, pass by pass, until the total is within the limit or
        they are down to the threshold. */
    method Drain(offenders: seq<Address>, threshold: nat, count: nat, ghost before: Lists, ghost level: nat)
      returns (left: nat, ghost level': nat, ghost trace: seq<Edit>)
      requires Valid() && count == Total(pending) && threshold > 0 && |offenders| > 0
      requires AtLevel(before, pending, locals, level, config.globalSlots) && level >= threshold
      requires forall i, j :: 0 <= i < j < |offenders| ==> offenders[i] != offenders[j]
      requires forall a :: a in offenders ==> a in before && a !in locals && |before[a]| >= level
      requires Above(before, locals, threshold) <= Members(offenders)
      modifies this`pending, all, priced`stales, priced`urgent, priced`floating, pendingNonces
      ensures Valid() && View() == Replay(old(View()), trace, config) && AllCaps(trace)
      ensures left == Total(pending) && threshold <= level' <= level
      ensures AtLevel(before, pending, locals, level', config.globalSlots)
      ensures left <= config.globalSlots || level' == threshold
    {
      hide Inv, Replay, CapOn, Total, Members, AtLevel, Above, TxLookup.Valid, TxPricedList.Valid, TxPricedList.Tracked;
      ghost var p := View();
      ReplayNone(p, config);
      left, level', trace := count, level, [];
      TopsAt(before, pending, locals, level', config.globalSlots, offenders);
      while left > config.globalSlots && |pending[offenders[|offenders| - 1]]| > threshold
        invariant Valid() && View() == Replay(p, trace, config) && AllCaps(trace)
        invariant left == Total(pending) && threshold <= level' <= level
        invariant AtLevel(before, pending, locals, level', config.globalSlots)
        invariant forall a :: a in offenders ==> a in pending && |pending[a]| == level'
        decreases level'
      {
        ghost var now := pending;
        DrainReady(before, locals, offenders, threshold, level');
        left := CapPass(offenders, level' - 1, left);
        PassAt(before, now, pending, locals, Members(offenders), level', config.globalSlots);
        ReplayAppend(p, trace, Caps(offenders, level' - 1), config);
        trace := trace + Caps(offenders, level' - 1);
        level' := level' - 1;
        TopsAt(before, pending, locals, level', config.globalSlots, offenders);
      }
    }

    method CountLists(l: Lists) returns (n: nat)
      ensures n == Total(l)
    {
      n := 0;
      var rest := l;
      while rest != map[]
        invariant n + Total(rest) == Total(l)
        decreases |rest|
      {
        var a :| a in rest;
        TotalPick(rest, a);
        WithoutSize(rest, a);
        n, rest := n + |rest[a]|, Without(rest, a);
      }
    }

    /** truncatePending. The spammers leave the priority queue longest first, ties in any
        order. */
    method TruncatePending() returns (ghost trace: seq<Edit>, ghost level: nat)
      requires Valid()
      modifies this`pending, all, priced`stales, priced`urgent, priced`floating, pendingNonces
      ensures Valid() && View() == Replay(old(View()), trace, config) && AllCaps(trace)
      ensures Total(old(pending)) <= config.globalSlots ==> trace == []
      ensures Total(old(pending)) > config.globalSlots ==>
        WaterFilled(old(pending), pending, locals, level, config.accountSlots, config.globalSlots)
    {
      hide Inv, Replay, Total, Level, Members, AtLevel, Popped, Longest, TxLookup.Valid, TxPricedList.Valid, TxPricedList.Tracked;
      ghost var p := View();
      ReplayNone(p, config);
      var start := pending;
      var count := CountLists(pending);
      if count <= config.globalSlots {
        return [], 0;
      }
      var spammers := Above(pending, locals, config.accountSlots);
      var offenders: seq<Address> := [];
      trace, level := [], Total(pending) + config.accountSlots;
      PopStart(pending, locals, config.accountSlots, config.globalSlots);
      while count > config.globalSlots && spammers != {}
        invariant Valid() && View() == Replay(p, trace, config) && AllCaps(trace)
        invariant count == Total(pending) && level >= config.accountSlots
        invariant AtLevel(start, pending, locals, level, config.globalSlots)
        invariant Popped(start, locals, config.accountSlots, offenders, spammers, level, count > config.globalSlots)
        invariant offenders == [] ==> pending == start && spammers == Above(start, locals, config.accountSlots)
        decreases spammers
      {
        PoppedWaiting(start, locals, config.accountSlots, offenders, spammers, level);
        var offender :| Longest(start, spammers, offender);
        PopReady(start, locals, config.accountSlots, offenders, spammers, level, offender);
        WaitingSame(start, pending, locals, level, config.globalSlots, offender);
        ghost var level0 := level;
        if |offenders| > 0 {
          var threshold := |pending[offender]|;
          ghost var more;
          count, level, more := Drain(offenders, threshold, count, start, level);
          ReplayAppend(p, trace, more, config);
          trace := trace + more;
        } else {
          level := |start[offender]|;
          PopFirst(start, locals, config.accountSlots, offenders, level, config.globalSlots);
        }
        PopDone(start, locals, config.accountSlots, offenders, spammers, level0, offender, level, count > config.globalSlots);
        offenders := offenders + [offender];
        spammers := spammers - {offender};
      }
      if count > config.globalSlots {
        if |offenders| > 0 {
          PoppedAll(start, locals, config.accountSlots, offenders, level);
          ghost var more;
          count, level, more := Drain(offenders, config.accountSlots, count, start, level);
          ReplayAppend(p, trace, more, config);
          trace := trace + more;
        } else {
          level := config.accountSlots;
        }
      }
      AtLevelFills(start, pending, locals, level, config.accountSlots, config.globalSlots);
    }

    /** Removes the k lowest nonces of a's queued list, one removeTx at a time. */
    method DropQueued(a: Address, k: nat, now: nat) returns (ghost drops: seq<Tx>)
      requires Valid() && a in queue && k <= |queue[a]|
      modifies this`pending, this`queue, this`beats, all, priced`stales, priced`urgent, priced`floating, pendingNonces
      ensures Valid() && View() == DropLowest(old(View()), a, k) == RemoveAll(old(View()), drops)
      ensures beats == BeatAll(old(View()), old(beats), Drops(drops), config, now)
      ensures BeatsKept(old(beats), beats, a)
    {
      hide BeatAll, BeatDrop, Inv, RemoveAll, PoolSpec.RemoveTx, Lowest, Cut, TxsOf, With, TxLookup.Valid, TxPricedList.Valid, TxPricedList.Tracked;
      ghost var p := View();
      ghost var b := beats;
      drops := [];
      DropNone(p, a);
      RemoveNone(p);
      BeatNoDrops(p, b, config, now);
      for i := 0 to k
        invariant Valid() && View() == DropLowest(p, a, i) == RemoveAll(p, drops)
        invariant beats == BeatAll(p, b, Drops(drops), config, now)
        invariant BeatsKept(old(beats), beats, a)
      {
        DropNext(p, a, i);
        var list := Of(queue, a);
        var tx := list[MinKey(list)];
        RemoveTx(tx, true, now);
        RemoveAllSnoc(p, drops, tx);
        BeatDropsSnoc(p, b, drops, tx, config, now);
        drops := drops + [tx];
      }
    }

    /** The eviction of idle accounts: every non-local account whose heartbeat is older than
        `lifetime` loses its queued transactions. */
    method EvictIdle(now: nat, lifetime: nat) returns (ghost drops: seq<Tx>)
      requires Valid()
      modifies this`pending, this`queue, this`beats, all, priced`stales, priced`urgent, priced`floating, pendingNonces
      ensures Valid() && View() == RemoveAll(old(View()), drops)
      ensures beats == BeatAll(old(View()), old(beats), Drops(drops), config, now)
      ensures pending == old(pending) && View().nonces == old(View().nonces)
      ensures queue == Only(old(queue), old(queue).Keys - Idle(old(queue), locals, old(beats), now, lifetime))
    {
      hide BeatAll, Inv, RemoveAll, With, Only, Idle, Cut, Lowest, TxsOf, TxLookup.Valid, TxPricedList.Valid, TxPricedList.Tracked;
      ghost var p, b := View(), beats;
      drops := [];
      RemoveNone(p);
      BeatNoDrops(p, b, config, now);
      var todo := queue.Keys;
      ghost var idle := Idle(queue, locals, beats, now, lifetime);
      IdleIs(queue, locals, beats, now, lifetime);
      EvictNone(queue, idle);
      while todo != {}
        invariant Valid() && View() == RemoveAll(p, drops)
        invariant beats == BeatAll(p, b, Drops(drops), config, now)
        invariant pending == p.pending && View().nonces == p.nonces
        invariant todo <= p.queue.Keys && todo <= beats.Keys && forall a :: a in todo ==> beats[a] == old(beats)[a]
        invariant queue == Only(p.queue, p.queue.Keys - (idle - todo))
        decreases todo
      {
        var a :| a in todo;
        EvictNext(p.queue, idle, todo, a);
        if a !in locals && now > beats[a] + lifetime {
          ghost var more := DropQueued(a, |queue[a]|, now);
          RemoveAllAppend(p, drops, more);
          BeatDropsAppend(p, b, drops, more, config, now);
          drops := drops + more;
        }
        todo := todo - {a};
      }
    }

    /** truncateQueue. Accounts of equal heartbeat come in any order. */
    method TruncateQueue(now: nat) returns (ghost drops: seq<Tx>)
      requires Valid()
      modifies this`pending, this`queue, this`beats, all, priced`stales, priced`urgent, priced`floating, pendingNonces
      ensures Valid() && View() == RemoveAll(old(View()), drops)
      ensures beats == BeatAll(old(View()), old(beats), Drops(drops), config, now)
      ensures pending == old(pending) && View().nonces == old(View().nonces)
      ensures ByAge(old(queue), queue, locals, old(beats))
      ensures Total(old(queue)) <= config.globalQueue ==> queue == old(queue)
      ensures Total(old(queue)) > config.globalQueue ==>
        Total(queue) == Max(config.globalQueue, Total(Only(old(queue), locals)))
    {
      hide BeatAll, Inv, RemoveAll, Total, ByAge, Emptied, Oldest, Only, Cut, Lowest, With, TxsOf, TxLookup.Valid, TxPricedList.Valid, TxPricedList.Tracked;
      ghost var p := View();
      drops := [];
      RemoveNone(p);
      BeatNoDrops(p, beats, config, now);
      var start, heartbeats := queue, beats;
      EmptiedStart(start, locals, heartbeats);
      EmptiedByAge(start, start, locals, heartbeats, start.Keys - locals);
      var queued := CountLists(queue);
      if queued <= config.globalQueue {
        return;
      }
      var addresses := start.Keys - locals;
      var drop := queued - config.globalQueue;
      while drop > 0 && addresses != {}
        invariant Valid() && View() == RemoveAll(p, drops)
        invariant beats == BeatAll(p, heartbeats, Drops(drops), config, now)
        invariant pending == old(pending) && View().nonces == old(View().nonces)
        invariant 0 <= drop && Total(queue) == config.globalQueue + drop
        invariant addresses <= heartbeats.Keys && ByAge(start, queue, locals, heartbeats)
        invariant drop > 0 ==> Emptied(start, queue, locals, heartbeats, addresses)
        decreases addresses
      {
        OldestExists(heartbeats, addresses);
        var a :| Oldest(heartbeats, addresses, a);
        EmptyNext(start, queue, locals, heartbeats, addresses, a);
        OldestIn(heartbeats, addresses, a);
        var size := |queue[a]|;
        var take := if size <= drop then size else drop;
        DropTotal(View(), a, take);
        ghost var more;
        if size <= drop {
          more := DropQueued(a, size, now);
          drop := drop - size;
          EmptiedByAge(start, queue, locals, heartbeats, addresses - {a});
        } else {
          TrimLast(start, queue, locals, heartbeats, addresses, a, drop);
          more := DropQueued(a, drop, now);
          drop := 0;
        }
        RemoveAllAppend(p, drops, more);
        BeatDropsAppend(p, heartbeats, drops, more, config, now);
        drops := drops + more;
        addresses := addresses - {a};
      }
      QueueShare(p, View(), locals, heartbeats, drop);
    }

    /** SetGasPrice. */
    method SetGasPrice(price: nat, now: nat) returns (ghost drops: seq<Tx>)
      requires Valid()
      modifies this`gasPrice, this`pending, this`queue, this`beats, all, priced`stales, priced`urgent, priced`floating, pendingNonces
      ensures Valid() && View() == RemoveAll(old(View()), drops) && gasPrice == price
      ensures beats == BeatAll(old(View()), old(beats), Drops(drops), config, now)
      ensures price <= old(gasPrice) ==> drops == []
      ensures price > old(gasPrice) ==> forall t :: t in drops <==> t in old(all.remotes) && t.tipCap < price
      ensures price > old(gasPrice) ==> forall t :: t in all.remotes ==> t.tipCap >= price
    {
      hide BeatAll, Inv, RemoveAll, TxLookup.Valid, TxPricedList.Valid, TxPricedList.Tracked;
      var was := gasPrice;
      gasPrice := price;
      drops := [];
      RemoveNone(View());
      BeatNoDrops(View(), beats, config, now);
      if price > was {
        var drop := all.RemotesBelowTip(price);
        RemoveTxs(drop, false, now);
        priced.Removed(|drop|);
        drops := drop;
      }
    }

    /** The pool's part of reset: follow the new head and re-inject. */
    method ResetHead(request: ResetRequest, now: nat) returns (ghost inject: seq<Edit>, ghost steps: seq<Admission>)
      requires Valid()
      modifies this`chain, this`pendingNonces, this`pending, this`queue, this`beats, this`locals, this`changesSinceReorg,
        all, priced`stales, priced`urgent, priced`floating, pendingNonces
      ensures Valid() && (pendingNonces == old(pendingNonces) || fresh(pendingNonces))
      ensures View() == Replay(old(View()), HeadEdits(request.head) + inject, config)
      ensures beats == BeatAll(old(View()), old(beats), HeadEdits(request.head) + inject, config, now)
      ensures Reinjects(old(Before()), old(priced.baseFee), request, steps, inject, config)
      ensures AllInject(inject) && chain == if request.head.Some? then request.head.value else old(chain)
    {
      hide Inv, Replay, AllInject, Admits, Admit, Taken, Injection, Readmits, Taking, BeatAll, TxLookup.Valid, TxPricedList.Valid, TxPricedList.Tracked;
      ghost var p, b0, fee, i0 := View(), beats, priced.baseFee, Before();
      steps, inject := [], [];
      NothingInjected();
      if request.head.None? {
        ReplayNone(p, config);
        BeatNone(p, b0, config, now);
        assert HeadEdits(None) + [] == [];
        return;
      }
      NewHeadReplays(p, b0, request.head.value, config, now);
      chain := request.head.value;
      pendingNonces := new TxNoncer(chain);
      ghost var start, head := Before(), HeadEdits(request.head);
      TakenNone(start, fee, request.reinject, config);
      for i := 0 to |request.reinject|
        invariant Valid() && fresh(pendingNonces) && priced.baseFee == fee
        invariant View() == Replay(p, head + inject, config)
        invariant beats == BeatAll(p, b0, head + inject, config, now)
        invariant |steps| == i && Readmits(start, fee, request.reinject, steps, config)
        invariant Before() == Taken(start, request.reinject, steps, config) && inject == Injection(start, request.reinject, steps, config)
        invariant AllInject(inject) && chain == request.head.value
      {
        var x := request.reinject[i];
        ghost var q := Before();
        var _, _, step, _, trace := AddTx(x.tx, false, x.invalid, now);
        ReplayMore(p, b0, head, inject, trace, config, now);
        assert trace == Taking(q.pool, x.tx, step, config);
        InjectMore(inject, trace);
        TakenNext(start, fee, request.reinject, steps, step, config);
        inject, steps := inject + trace, steps + [step];
      }
    }

    method QueueAccounts() returns (accounts: seq<Address>)
      ensures Distinct(accounts) && forall a :: a in accounts <==> a in queue
    {
      hide Distinct;
      accounts := [];
      NoneTwice();
      var todo := queue.Keys;
      while todo != {}
        invariant Distinct(accounts)
        invariant todo <= queue.Keys && forall a :: a in accounts <==> a in queue && a !in todo
        decreases todo
      {
        var a :| a in todo;
        OnceMore(accounts, a);
        accounts := accounts + [a];
        todo := todo - {a};
      }
    }

    /** The end of a reset: re-rank by the new base fee and take the virtual nonces from the
        last pending transactions, of which every list has one. */
    method FinishReset(baseFee: Option<nat>)
      requires Valid()
      modifies priced, pendingNonces
      ensures Valid() && View() == Apply(old(View()), SetAll, config)
      ensures priced.baseFee == if baseFee.Some? then baseFee else old(priced.baseFee)
    {
      hide Inv, TxLookup.Valid;
      ghost var p := View();
      ApplyInv(p, SetAll, config);
      RenonceIs(p, config);
      if baseFee.Some? {
        priced.SetBaseFee(baseFee);
      }
      pendingNonces.SetAll(map a | a in pending :: Next(MaxKey(pending[a])));
    }

    /** Brings the pool back within its limits. */
    method Truncate(now: nat) returns (ghost after: seq<Edit>, ghost level: nat)
      requires Valid()
      modifies this`pending, this`queue, this`beats, all, priced`stales, priced`urgent, priced`floating, pendingNonces
      ensures Valid() && View() == Replay(old(View()), after, config) && AllTrim(after)
      ensures beats == BeatAll(old(View()), old(beats), after, config, now)
      ensures Shrinks(old(View()), View(), old(beats), level, config)
    {
      hide BeatAll, Inv, Replay, RemoveAll, Total, Only, ByAge, TxLookup.Valid, TxPricedList.Valid, TxPricedList.Tracked, WaterFilled;
      ghost var p, b := View(), beats;
      ghost var caps;
      caps, level := TruncatePending();
      ReplayNone(p, config);
      ghost var q := View();
      ghost var drops := TruncateQueue(now);
      DropsReplay(q, drops, config);
      ReplayAppend(p, caps, Drops(drops), config);
      BeatCaps(p, b, caps, config, now);
      BeatAppend(p, b, caps, Drops(drops), config, now);
      CapsAndDropsTrim(caps, drops);
      after := caps + Drops(drops);
    }

    /** What runReorg does on a new head: reset, promote every queued account, demote every
        pending one, renew the virtual nonces, and re-rank by the base fee to come. */
    method FollowHead(request: ResetRequest, now: nat)
      returns (ghost inject: seq<Edit>, ghost steps: seq<Admission>, ghost promoted: seq<Address>, ghost demoted: seq<Address>)
      requires Valid()
      modifies this`chain, this`pendingNonces, this`pending, this`queue, this`beats, this`locals, this`changesSinceReorg, all, priced, pendingNonces
      ensures Valid() && (pendingNonces == old(pendingNonces) || fresh(pendingNonces))
      ensures var op := Reset(request.head, inject, promoted, demoted, []);
        && View() == Renewed(old(View()), op, config) && Ordered(old(View()), op, config)
        && beats == BeatAll(old(View()), old(beats), FrontEdits(op, []), config, now)
      ensures Reinjects(old(Before()), old(priced.baseFee), request, steps, inject, config)
      ensures priced.baseFee == if request.baseFee.Some? then request.baseFee else old(priced.baseFee)
    {
      hide Inv, Replay, AllInject, Distinct, Reinjects, BeatAll, TxLookup.Valid, TxPricedList.Valid, TxPricedList.Tracked;
      ghost var p, b0 := View(), beats;
      inject, steps := ResetHead(request, now);
      ghost var front := HeadEdits(request.head) + inject;
      var accounts := QueueAccounts();
      PromoteExecutables(accounts, now);
      promoted := accounts;
      ReplayAppend(p, front, Promotions(promoted), config);
      BeatAppend(p, b0, front, Promotions(promoted), config, now);
      demoted := DemoteUnexecutables(now);
      ReplayAppend(p, front + Promotions(promoted), Demotions(demoted), config);
      BeatAppend(p, b0, front + Promotions(promoted), Demotions(demoted), config, now);
      FinishReset(request.baseFee);
      ReplaySnoc(p, front + Promotions(promoted) + Demotions(demoted), SetAll, config);
      BeatSnoc(p, b0, front + Promotions(promoted) + Demotions(demoted), SetAll, config, now);
    }

    /** The locked part of runReorg: promotion of the dirty accounts, or the reset that was
        requested, and then truncation. An account that was steady stays so unless its last
        nonce is promoted and kept, or its chain nonce is lowered and the lists do not heal. */
    method RunReorg(request: Option<ResetRequest>, dirty: seq<Address>, now: nat)
      returns (ghost op: Op, ghost steps: seq<Admission>, ghost after: seq<Edit>, ghost level: nat)
      requires Valid()
      modifies this`chain, this`pendingNonces, this`pending, this`queue, this`beats, this`locals, this`changesSinceReorg, all, priced, pendingNonces
      ensures Valid() && View() == Replay(old(View()), Edits(op), config) && Ordered(old(View()), op, config) && AllTrim(after)
      ensures beats == BeatAll(old(View()), old(beats), Edits(op), config, now)
      ensures Edits(op) == FrontEdits(op, dirty) + after
      ensures request.None? ==> op == Batch(Promotions(dirty) + after)
      ensures request.Some? ==>
        && op.Reset? && op.head == request.value.head && op.after == after
        && Reinjects(old(Before()), old(priced.baseFee), request.value, steps, op.inject, config)
      ensures var p := Replay(old(View()), FrontEdits(op, dirty), config);
        Shrinks(p, View(), BeatAll(old(View()), old(beats), FrontEdits(op, dirty), config, now), level, config)
      ensures priced.baseFee == if request.Some? && request.value.baseFee.Some? then request.value.baseFee else old(priced.baseFee)
      ensures forall a :: Steady(old(View()), a) && Clean(old(View()), op, a, config) ==> Steady(View(), a)
      ensures request.Some? ==> forall a :: Fates.AllAfford(View(), a)
      ensures Total(pending) <= config.globalSlots || forall a :: a in pending && a !in locals ==> |pending[a]| <= config.accountSlots
      ensures Total(queue) <= Max(config.globalQueue, Total(Only(queue, locals)))
      ensures changesSinceReorg == 0
    {
      hide Inv, Replay, Total, Only, AllTrim, Ordered, Clean, Steady, Shrinks, BeatAll, Reinjects, Promotions, Demotions, Before, Fates.AllAfford,
        TxLookup.Valid, TxPricedList.Valid, TxPricedList.Tracked;
      ghost var p, b0 := View(), beats;
      ghost var inject, promoted, demoted := [], [], [];
      steps := [];
      if request.Some? {
        inject, steps, promoted, demoted := FollowHead(request.value, now);
      } else {
        PromoteExecutables(dirty, now);
      }
      ghost var q, b := View(), beats;
      after, level := Truncate(now);
      changesSinceReorg := 0;
      if request.Some? {
        op := Reset(request.value.head, inject, promoted, demoted, after);
        ResetEdits(p, op, config);
      } else {
        op := Batch(Promotions(dirty) + after);
        BatchEdits(p, dirty, after, config);
      }
      BeatAppend(p, b0, FrontEdits(op, dirty), after, config, now);
      WithinLimits(q, View(), b, level, config);
      CleanAccounts(p, op, config);
      Fates.AllAffordAfter(p, op, config);
    }
  }

  lemma NewHeadReplays(p: Pool, beats: Beats, chain: Chain, c: Config, now: nat)
    requires Inv(p)
    ensures var q := p.(chain := chain, nonces := map[]);
      && Inv(q) && HeadEdits(Some(chain)) + [] == HeadEdits(Some(chain))
      && Replay(p, HeadEdits(Some(chain)), c) == q && BeatAll(p, beats, HeadEdits(Some(chain)), c, now) == beats
  {
    ReplayOne(p, NewHead(chain), c);
    BeatOne(p, beats, NewHead(chain), c, now);
  }

  lemma ReplayMore(p: Pool, beats: Beats, head: seq<Edit>, inject: seq<Edit>, more: seq<Edit>, c: Config, now: nat)
    requires Inv(p)
    ensures Replay(p, head + (inject + more), c) == Replay(Replay(p, head + inject, c), more, c)
    ensures BeatAll(p, beats, head + (inject + more), c, now) == BeatAll(Replay(p, head + inject, c), BeatAll(p, beats, head + inject, c, now), more, c, now)
  {
    ReplayAppend(p, head + inject, more, c);
    BeatAppend(p, beats, head + inject, more, c, now);
    assert head + (inject + more) == head + inject + more;
  }

  lemma NothingInjected()
    ensures AllInject([])
  {}

  lemma InjectMore(xs: seq<Edit>, ys: seq<Edit>)
    requires AllInject(xs) && AllInject(ys)
    ensures AllInject(xs + ys)
  {}

  /** Within the limits, or down to what truncation must leave. */
  lemma WithinLimits(p: Pool, q: Pool, beats: Beats, level: nat, c: Config)
    requires Inv(p) && Inv(q) && Shrinks(p, q, beats, level, c) && q.locals == p.locals
    ensures Total(q.pending) <= c.globalSlots || forall a :: a in q.pending && a !in q.locals ==> |q.pending[a]| <= c.accountSlots
    ensures Total(q.queue) <= Max(c.globalQueue, Total(Only(q.queue, q.locals)))
  {
    hide Inv, Total, Only, ByAge, WaterFilled;
    if Total(p.pending) > c.globalSlots {
      WaterFilledMeans(p.pending, q.pending, p.locals, level, c.accountSlots, c.globalSlots);
    }
    OnlySame(p, q, p.locals, beats);
  }

  lemma CapsAndDropsTrim(caps: seq<Edit>, drops: seq<Tx>)
    requires AllCaps(caps)
    ensures AllTrim(caps + Drops(drops))
  {}

  lemma NoneTwice()
    ensures Distinct([])
  {}

  lemma OnceMore(accounts: seq<Address>, a: Address)
    requires Distinct(accounts) && a !in accounts
    ensures Distinct(accounts + [a])
  {}

  lemma CleanAccounts(p: Pool, op: Op, c: Config)
    requires Inv(p) && Ordered(p, op, c)
    ensures forall a :: Steady(p, a) && Clean(p, op, a, c) ==> Steady(Replay(p, Edits(op), c), a)
  {
    hide *;
    forall a | Steady(p, a) && Clean(p, op, a, c) ensures Steady(Replay(p, Edits(op), c), a) { OpKeepsSteady(p, op, a, c); }
  }

  lemma OnlySame(p: Pool, q: Pool, locals: set<Address>, beats: map<Address, nat>)
    requires Inv(p) && Inv(q) && ByAge(p.queue, q.queue, locals, beats)
    ensures Only(q.queue, locals) == Only(p.queue, locals)
  {
    forall a | a in locals ensures a in p.queue <==> a in q.queue { assert Of(q.queue, a) == Of(p.queue, a); }
    forall a | a in locals && a in p.queue ensures q.queue[a] == p.queue[a] { assert Of(q.queue, a) == Of(p.queue, a); }
  }

  lemma BatchEdits(p: Pool, dirty: seq<Address>, after: seq<Edit>, c: Config)
    requires Inv(p) && AllTrim(after)
    ensures Replay(p, Edits(Batch(Promotions(dirty) + after)), c) == Replay(Replay(p, Promotions(dirty), c), after, c)
    ensures Ordered(p, Batch(Promotions(dirty) + after), c)
  {
    ReplayAppend(p, Promotions(dirty), after, c);
    hide Inv, Replay;
  }

  /** A reset's truncation has no part in its order. */
  lemma ResetEdits(p: Pool, op: Op, c: Config)
    requires Inv(p) && op.Reset? && AllTrim(op.after) && Ordered(p, op.(after := []), c)
    ensures Replay(p, Edits(op), c) == Replay(Renewed(p, op.(after := []), c), op.after, c)
    ensures Ordered(p, op, c)
  {
    ReplayAppend(p, ResetFront(op) + Promotions(op.promoted) + Demotions(op.demoted) + [SetAll], op.after, c);
    hide Inv, Replay, Distinct, AllInject;
  }

  /** No heartbeat but a's was touched. */
  ghost predicate BeatsKept(was: map<Address, nat>, beats: map<Address, nat>, a: Address) {
    forall b :: b in was && b != a ==> b in beats && beats[b] == was[b]
  }

  lemma RemoveAllAppend(p: Pool, xs: seq<Tx>, ys: seq<Tx>)
    ensures RemoveAll(p, xs + ys) == RemoveAll(RemoveAll(p, xs), ys)
    decreases |xs|
  {
    if xs == [] {
      assert xs + ys == ys;
    } else {
      assert (xs + ys)[1..] == xs[1..] + ys;
      RemoveAllAppend(PoolSpec.RemoveTx(p, xs[0]), xs[1..], ys);
    }
  }

  lemma IdleIs(l: Lists, locals: set<Address>, beats: map<Address, nat>, now: nat, lifetime: nat)
    requires l.Keys <= beats.Keys
    ensures Idle(l, locals, beats, now, lifetime) <= l.Keys
    ensures forall a :: a in l ==> (a in Idle(l, locals, beats, now, lifetime) <==> a !in locals && now > beats[a] + lifetime)
  {}

  lemma OldestIn(beats: map<Address, nat>, s: set<Address>, a: Address)
    requires s <= beats.Keys && Oldest(beats, s, a)
    ensures a in s
  {}

  lemma QueueShare(p: Pool, q: Pool, locals: set<Address>, beats: map<Address, nat>, drop: nat)
    requires Inv(p) && Inv(q) && ByAge(p.queue, q.queue, locals, beats)
    requires drop > 0 ==> Emptied(p.queue, q.queue, locals, beats, {})
    ensures Total(Only(p.queue, locals)) <= Total(q.queue)
    ensures drop > 0 ==> Total(Only(p.queue, locals)) == Total(q.queue)
  {
    LocalShare(p.queue, q.queue, locals, beats);
    assert locals + {} == locals;
  }

  lemma PromoteNothing(p: Pool, a: Address, accountQueue: nat)
    requires a !in p.queue
    ensures PromoteAccount(p, a, accountQueue) == p
  {}

  /** What the invariant supplies to promotion: the ready run clashes with nothing pending. */
  lemma PromoteReady(p: Pool, a: Address)
    requires Inv(p)
    ensures a in p.pending ==> p.pending[a] != map[]
    ensures var ready := Below(Sound(p, a), RunOf(Sound(p, a), VNonce(p, a)));
      Belongs(ready, a) && ready.Keys !! Of(p.pending, a).Keys
  {
    AccountInv(p, a);
  }

  lemma PromoteIs(p: Pool, a: Address, accountQueue: nat, q: Pool)
    requires a in p.queue
    requires var queued, list := Of(p.queue, a), Sound(p, a);
      var end := RunOf(list, VNonce(p, a));
      var ready, rest := Below(list, end), From(list, end);
      && q.pending == With(p.pending, a, Of(p.pending, a) + ready)
      && q.queue == With(p.queue, a, if a in p.locals then rest else Lowest(rest, accountQueue))
      && q.known == p.known - TxsOf(Below(queued, p.chain.Nonce(a)))
           - TxsOf(Unpayables(From(queued, p.chain.Nonce(a)), p.chain.Balance(a), p.chain.maxGas))
           - (if a in p.locals then {} else TxsOf(Cut(rest, accountQueue)))
      && q.nonces == (if ready == map[] then p.nonces[a := VNonce(p, a)] else p.nonces[a := VNonce(p, a)][a := Next(MaxKey(ready))])
    requires q.chain == p.chain && q.locals == p.locals
    ensures q == PromoteAccount(p, a, accountQueue)
  {
    NoTxs();
    hide Of, With, Below, From, Lowest, Cut, TxsOf, Payables, Unpayables, RunOf;
  }

  /** What the invariant supplies to demotion. */
  lemma DemoteReady(p: Pool, a: Address)
    requires Inv(p)
    ensures a in p.queue ==> p.queue[a] != map[]
    ensures var live, balance, maxGas := Unmined(p, a), p.chain.Balance(a), p.chain.maxGas;
      var kept, inval := Kept(live, true, balance, maxGas), Invalidated(live, true, balance, maxGas);
      && Belongs(kept, a) && Belongs(inval, a)
      && inval.Keys !! Of(p.queue, a).Keys && kept.Keys !! (Of(p.queue, a) + inval).Keys
  {
    AccountInv(p, a);
    FilterPartition(Unmined(p, a), true, p.chain.Balance(a), p.chain.maxGas);
    hide Unpayables, Payable;
  }

  lemma QueueTwice(q: Lists, a: Address, m: Items, r: Items)
    requires a in q ==> q[a] != map[]
    ensures var q1 := With(q, a, Of(q, a) + m);
      && Of(q1, a) == Of(q, a) + m && (a in q1 ==> q1[a] != map[])
      && With(q1, a, Of(q1, a) + r) == With(q, a, Of(q, a) + (m + r))
  {
    OfWith(q, a, Of(q, a) + m, a);
    assert Of(q, a) + m + r == Of(q, a) + (m + r);
  }

  lemma DemoteIs(p: Pool, a: Address, q: Pool)
    requires a in p.pending
    requires var live, balance, maxGas := Unmined(p, a), p.chain.Balance(a), p.chain.maxGas;
      var kept, inval := Kept(live, true, balance, maxGas), Invalidated(live, true, balance, maxGas);
      var gapped := kept != map[] && p.chain.Nonce(a) !in kept;
      && q.pending == With(p.pending, a, if gapped then map[] else kept)
      && q.queue == With(p.queue, a, Of(p.queue, a) + if gapped then inval + kept else inval)
      && q.known == p.known - TxsOf(Below(Of(p.pending, a), p.chain.Nonce(a))) - TxsOf(Unpayables(live, balance, maxGas))
    requires q.chain == p.chain && q.locals == p.locals && q.nonces == p.nonces
    ensures q == DemoteAccount(p, a)
  {
    hide Of, With, Below, From, TxsOf, Unpayables, Kept, Invalidated;
    assert forall m: Items :: m + map[] == m;
  }

  lemma DemoteKeys(p: Pool, a: Address)
    ensures forall b :: b != a && b in p.pending ==> b in DemoteAccount(p, a).pending
  {}

  lemma CapNone(p: Pool, offenders: seq<Address>, k: nat, c: Config)
    requires Inv(p)
    ensures Replay(p, Caps(offenders[..0], k), c) == p && CapOn(p.pending, Members(offenders[..0]), k) == p.pending
  {
    assert Caps(offenders[..0], k) == [];
  }

  lemma CapsNext(offenders: seq<Address>, i: nat, k: nat)
    requires i < |offenders|
    ensures Caps(offenders[..i + 1], k) == Caps(offenders[..i], k) + [Cap(offenders[i], k)]
  {}

  lemma PassReady(l: Lists, offenders: seq<Address>, i: nat, k: nat)
    requires k > 0 && i < |offenders| && offenders[i] in l && |l[offenders[i]]| == k + 1
    requires forall i, j :: 0 <= i < j < |offenders| ==> offenders[i] != offenders[j]
    ensures var a, r := offenders[i], CapOn(l, Members(offenders[..i]), k);
      && a in r && |r[a]| == k + 1 && Cut(r[a], k) != map[]
      && With(r, a, Lowest(r[a], k)) == CapOn(l, Members(offenders[..i + 1]), k)
      && Total(CapOn(l, Members(offenders[..i + 1]), k)) == Total(r) - 1
  {
    CapStep(l, Members(offenders[..i]), offenders[i], k);
    MembersSnoc(offenders, i);
  }

  lemma CapAccountIs(p: Pool, a: Address, k: nat)
    requires a in p.pending && Cut(p.pending[a], k) != map[]
    ensures CapAccount(p, a, k).pending == With(p.pending, a, Lowest(p.pending[a], k))
  {}

  lemma DrainReady(before: Lists, locals: set<Address>, offenders: seq<Address>, threshold: nat, level: nat)
    requires level > threshold && Above(before, locals, threshold) <= Members(offenders)
    requires forall a :: a in offenders ==> a in before && a !in locals
    ensures Members(offenders) <= before.Keys - locals && Above(before, locals, level - 1) <= Members(offenders)
  {
    AboveMono(before, locals, threshold, level - 1);
  }

  /** done and todo split m, with every nonce of done below every nonce of todo. */
  ghost predicate Halves(m: Items, done: Items, todo: Items) {
    && Part(done, m) && Part(todo, m)
    && (forall n :: n in m ==> (n in done <==> n !in todo))
    && (forall i, j :: i in done && j in todo ==> i < j)
  }

  lemma HalvesEnds(m: Items)
    ensures Halves(m, map[], m)
    ensures forall done :: Halves(m, done, map[]) ==> done == m
  {}

  lemma MoveMin(m: Items, done: Items, todo: Items, n: uint64)
    requires Halves(m, done, todo) && todo != map[] && n == MinKey(todo)
    ensures n in m && n !in done
    ensures Halves(m, done[n := m[n]], Delete(todo, n)) && |Delete(todo, n)| < |todo|
    ensures MaxKey(done[n := m[n]]) == n
  {
    WithoutKey(todo, n);
    assert n in done[n := m[n]];
  }

  lemma StillTracked(was: set<Tx>, tracked: set<Tx>, remotes: set<Tx>)
    requires remotes <= was && was * remotes == tracked * remotes
    ensures remotes <= tracked
  {
    forall t | t in remotes ensures t in tracked { assert t in was * remotes; }
  }

  lemma RemoveNone(p: Pool)
    ensures RemoveAll(p, []) == p
  {}

  lemma ReplayNone(p: Pool, c: Config)
    requires Inv(p)
    ensures Replay(p, [], c) == p
  {}

  lemma InsertRefuses(p: Pool, tx: Tx, priceBump: nat)
    requires tx.nonce in Of(p.pending, tx.from) && !Replaces(Of(p.pending, tx.from)[tx.nonce], tx, priceBump)
    ensures Insert(p, tx, priceBump) == (p, false)
  {}

  lemma InsertReplaces(p: Pool, q: Pool, tx: Tx, priceBump: nat)
    requires tx.nonce in Of(p.pending, tx.from) && Replaces(Of(p.pending, tx.from)[tx.nonce], tx, priceBump)
    requires q == p.(pending := q.pending, known := q.known)
    requires q.pending == p.pending[tx.from := Of(p.pending, tx.from)[tx.nonce := tx]]
    requires q.known == p.known - {Of(p.pending, tx.from)[tx.nonce]} + {tx}
    ensures Insert(p, tx, priceBump) == (q, true)
  {}

  lemma InsertQueues(p: Pool, q: Pool, tx: Tx, ok: bool, priceBump: nat)
    requires tx.nonce !in Of(p.pending, tx.from)
    requires ok == !(tx.nonce in Of(p.queue, tx.from) && !Replaces(Of(p.queue, tx.from)[tx.nonce], tx, priceBump))
    requires q == p.(queue := q.queue, known := q.known)
    requires q.queue == if ok then p.queue[tx.from := Of(p.queue, tx.from)[tx.nonce := tx]] else p.queue
    requires q.known == if ok then p.known - (if tx.nonce in Of(p.queue, tx.from) then {Of(p.queue, tx.from)[tx.nonce]} else {}) + {tx} else p.known
    ensures Insert(p, tx, priceBump) == (q, ok)
  {
    hide Replaces;
  }

  /** drops frees the excess, or all there is, and no more than one transaction too many. */
  ghost predicate Evicted(live: multiset<Tx>, drops: seq<Tx>, excess: int) {
    && multiset(drops) <= live
    && (if excess <= SlotsOf(live) then SlotsOf(multiset(drops)) >= excess else multiset(drops) == live)
    && (|drops| > 0 ==> SlotsOf(multiset(drops[..|drops| - 1])) < excess)
  }

  lemma EvictedIs(live: multiset<Tx>, left: multiset<Tx>, drops: seq<Tx>, excess: int)
    requires left + multiset(drops) == live
    requires excess <= SlotsOf(live) ==> SlotsOf(multiset(drops)) >= excess
    requires excess > SlotsOf(live) ==> multiset(drops) == live
    requires |drops| > 0 ==> SlotsOf(multiset(drops[..|drops| - 1])) < excess
    ensures Evicted(live, drops, excess)
  {
    hide SlotsOf;
    forall t ensures multiset(drops)[t] <= live[t] { assert live[t] == left[t] + multiset(drops)[t]; }
  }

  lemma SingleIsLive(priced: TxPricedList)
    ensures priced.Single() ==> priced.LiveBag() == multiset(priced.all.remotes)
  {
    if priced.Single() { LiveIsRemote(priced.urgent, priced.floating, priced.all.remotes); }
  }

  lemma NoMembers()
    ensures Members<Tx>([]) == {}
  {}

  lemma SlotsKnown(all: TxLookup)
    ensures all.Valid() ==> all.slots == SlotSum(all.locals + all.remotes)
  {}

  lemma SlotsGrow(was: set<Tx>, known: set<Tx>, tx: Tx)
    requires known <= was + {tx}
    ensures SlotSum(known) <= SlotSum(was) + tx.NumSlots()
  {
    SlotSumMono(known, was + {tx});
    SlotSumPick(was + {tx}, tx);
    SlotSumMono(was + {tx} - {tx}, was);
  }

  /** Without duplicate entries, what was evicted is what the lookup lost. */
  lemma RoomMade(remotes: set<Tx>, known: set<Tx>, live: multiset<Tx>, drops: seq<Tx>, excess: int)
    requires remotes <= known && Evicted(live, drops, excess)
    ensures live == multiset(remotes) && excess <= SlotsOf(live) ==> SlotSum(known - Members(drops)) <= SlotSum(known) - excess
  {
    if live == multiset(remotes) {
      DropsWeigh(remotes, live, drops);
      SlotSumMinus(known, Members(drops));
    }
  }

  lemma MarkReplays(p: Pool, beats: Beats, es: seq<Edit>, a: Address, q: Pool, c: Config, now: nat)
    requires Inv(p) && q == Replay(p, es, c)
    ensures Inv(q.(locals := q.locals + {a})) && Replay(p, es + [MarkLocal(a)], c) == q.(locals := q.locals + {a})
    ensures BeatAll(p, beats, es + [MarkLocal(a)], c, now) == BeatAll(p, beats, es, c, now)
  {
    ReplaySnoc(p, es, MarkLocal(a), c);
    BeatSnoc(p, beats, es, MarkLocal(a), c, now);
    InvFrame(q, q.(locals := q.locals + {a}));
  }

  lemma MembersWithin(drops: seq<Tx>, remotes: set<Tx>)
    requires forall t :: t in drops ==> t in remotes
    ensures Members(drops) <= remotes
  {}

  /** Evicting from the live entries frees remote transactions. */
  lemma EvictedFrees(live: multiset<Tx>, remotes: set<Tx>, drops: seq<Tx>, excess: int)
    requires Evicted(live, drops, excess) && forall t :: t in live <==> t in remotes
    ensures Frees(remotes, drops, excess)
  {
    hide SlotsOf;
    forall t ensures t in drops ==> t in remotes { assert t in drops <==> t in multiset(drops); }
    if multiset(drops) == live {
      forall t ensures t in remotes ==> t in drops { assert t in drops <==> t in multiset(drops); }
    }
  }

  /** Filing one more of the transactions that go back to the queue. */
  lemma EnqueueOne(q0: Lists, a: Address, placed: Items, n: uint64, t: Tx)
    requires n !in Of(q0, a) && n !in placed && t.nonce == n
    ensures var q := With(q0, a, Of(q0, a) + placed);
      && n !in Of(q, a)
      && q[a := Of(q, a)[n := t]] == With(q0, a, Of(q0, a) + placed[n := t])
  {
    OfWith(q0, a, Of(q0, a) + placed, a);
    assert Of(q0, a) + placed[n := t] == (Of(q0, a) + placed)[n := t];
  }

  lemma PromoteBeats(p: Pool, beats: Beats, a: Address, c: Config, now: nat)
    ensures BeatPromote(p, beats, a, c, now) ==
      if a !in p.queue then beats
      else
        var end := RunOf(Sound(p, a), VNonce(p, a));
        var renewed := if Below(Sound(p, a), end) == map[] then beats else beats[a := now];
        var rest := From(Sound(p, a), end);
        if (if a in p.locals then rest else Lowest(rest, c.accountQueue)) == map[] then Stopped(renewed, a) else renewed
  {
    hide Sound, RunOf, Lowest, Below, From;
  }

  lemma DemoteBeats(p: Pool, beats: Beats, a: Address, now: nat)
    requires a in p.pending
    ensures var live, balance, maxGas := Unmined(p, a), p.chain.Balance(a), p.chain.maxGas;
      var kept, inval := Kept(live, true, balance, maxGas), Invalidated(live, true, balance, maxGas);
      var first := if inval == map[] then beats else Touch(beats, a, now);
      BeatDemote(p, beats, a, now) == if kept != map[] && p.chain.Nonce(a) !in kept then Touch(first, a, now) else first
  {
    hide Kept, Invalidated, Unmined;
  }

  lemma PutBeats(p: Pool, beats: Beats, tx: Tx, c: Config, now: nat)
    requires tx !in p.known
    ensures BeatPut(p, beats, tx, c, now) ==
      if !Insert(p, tx, c.priceBump).1 then beats
      else if tx.nonce in Of(p.pending, tx.from) || tx.from !in beats then beats[tx.from := now]
      else beats
  {
    hide Insert;
  }

  lemma NothingPlaced(q0: Lists, a: Address, beats: Beats)
    ensures Of(q0, a) + map[] == Of(q0, a) && BeatsKept(beats, beats, a)
  {}

  /** A second touch changes nothing. */
  lemma TouchNext(was: Beats, beats: Beats, a: Address, now: nat, first: bool)
    requires beats == if first then was else Touch(was, a, now)
    ensures (if a in beats then beats else beats[a := now]) == Touch(was, a, now)
    ensures BeatsKept(was, Touch(was, a, now), a)
  {}

  /** What the invariant supplies to removeTx: the transactions cut off are filed under the
      sender and clash with nothing queued; else the transaction is in the queue. */
  lemma RemoveReady(p: Pool, tx: Tx)
    requires Inv(p) && tx in p.known
    ensures var a, list := tx.from, Of(p.pending, tx.from);
      && (tx.nonce in list ==>
            && Belongs(From(list, tx.nonce + 1), a)
            && From(list, tx.nonce + 1).Keys !! Of(p.queue, a).Keys)
      && (tx.nonce !in list ==> a in p.queue && With(p.pending, a, list) == p.pending)
      && (a in p.queue ==> p.queue[a] != map[])
  {
    AccountInv(p, tx.from);
    RemoveFindsIt(p, tx);
    WithSame(p.pending, tx.from);
  }
}
