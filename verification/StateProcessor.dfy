/** StateProcessor: the transaction loop of a block. */
module StateProcessors {
  import opened Transactions
  import opened GasPools
  import opened StateTransitions
  import Settlement

  datatype Receipt = Receipt(gasUsed: nat, cumulativeGasUsed: nat, failed: bool)

  /** A transaction of the block with what the surroundings say of it: whether it is a system
      transaction, whether sender recovery, consensus validation or message building refuses
      it, whether its sender has code, whether it may create, and how the EVM runs it. */
  datatype Item = Item(msg: Message, meta: Meta, system: bool, refused: bool, hasCode: bool, canCreate: bool, evm: Evm)

  ghost predicate Sane(item: Item) {
    && Honest(item.evm) && Frugal(item.evm) && |item.msg.data| <= MAX_UINT64
    && Decodes(item.msg.data, item.meta)
  }

  ghost predicate AllSane(items: seq<Item>) { forall i :: 0 <= i < |items| ==> Sane(items[i]) }

  /** Everything but the system transactions. */
  function Common(items: seq<Item>): seq<Item> {
    if items == [] then []
    else Common(items[..|items| - 1]) + if items[|items| - 1].system then [] else [items[|items| - 1]]
  }

  function TotalGas(receipts: seq<Receipt>): nat {
    if receipts == [] then 0 else TotalGas(receipts[..|receipts| - 1]) + receipts[|receipts| - 1].gasUsed
  }

  /** What the receipts say is burnt. */
  function Burnt(items: seq<Item>, receipts: seq<Receipt>, rules: Rules): int
    requires |items| == |receipts|
  {
    if items == [] then 0
    else
      var k := |items| - 1;
      Burnt(items[..k], receipts[..k], rules) + receipts[k].gasUsed * (items[k].msg.gasPrice - EffectiveTip(items[k].msg, rules))
  }

  function Metas(items: seq<Item>): nat {
    if items == [] then 0 else Metas(items[..|items| - 1]) + if items[|items| - 1].meta.Payer? then 1 else 0
  }

  /** Each receipt's cumulative gas is the running sum. */
  ghost predicate Running(receipts: seq<Receipt>) {
    forall i :: 0 <= i < |receipts| ==> receipts[i].cumulativeGasUsed == TotalGas(receipts[..i + 1])
  }

  /** The money in the state is what it was less what the receipts say is burnt, to within
      one wei for each meta transaction. */
  ghost predicate Accounted(before: int, after: int, items: seq<Item>, receipts: seq<Receipt>, rules: Rules) {
    && |items| == |receipts|
    && before - Burnt(items, receipts, rules) - Metas(items) <= after <= before - Burnt(items, receipts, rules) + Metas(items)
  }

  lemma RunningNext(receipts: seq<Receipt>, r: Receipt)
    requires Running(receipts) && r.cumulativeGasUsed == TotalGas(receipts) + r.gasUsed
    ensures TotalGas(receipts + [r]) == TotalGas(receipts) + r.gasUsed && Running(receipts + [r])
  {
    var s := receipts + [r];
    TotalGasNext(receipts, r);
    hide TotalGas;
    assert s[..|s|] == s;
    forall i | 0 <= i < |s| ensures s[i].cumulativeGasUsed == TotalGas(s[..i + 1]) {
      if i < |receipts| { assert s[..i + 1] == receipts[..i + 1]; }
    }
  }

  lemma TotalGasNext(receipts: seq<Receipt>, r: Receipt)
    ensures TotalGas(receipts + [r]) == TotalGas(receipts) + r.gasUsed
  {
    assert (receipts + [r])[..|receipts|] == receipts;
  }

  lemma AccountedNext(before: int, was: int, after: int, items: seq<Item>, receipts: seq<Receipt>, rules: Rules, item: Item, r: Receipt)
    requires Accounted(before, was, items, receipts, rules)
    requires var change := after - (was - r.gasUsed * (item.msg.gasPrice - EffectiveTip(item.msg, rules)));
      (!item.meta.Payer? ==> change == 0) && -1 <= change <= 1
    ensures Accounted(before, after, items + [item], receipts + [r], rules)
  {
    hide EffectiveTip;
    assert (items + [item])[..|items|] == items && (receipts + [r])[..|receipts|] == receipts;
  }

  // ----- what the loop is meant to compute -----

  /** What one transaction leaves to the next. */
  datatype Ledger = Ledger(balances: Balances, nonces: Nonces, pool: uint64, used: nat, receipts: seq<Receipt>)

  /** Why an item ends the block, if it does. */
  function Reason(item: Item, l: Ledger, rules: Rules): Option<Error>
    requires item.meta.Payer? ==> item.meta.feePercent <= FEE_BASE
  {
    if item.system then None
    else if item.refused then Some(Refused)
    else Refusal(l.balances, NonceOf(l.nonces, item.msg.from), l.pool, item.msg, item.meta, rules, item.hasCode, item.canCreate)
  }

  ghost function Apply(item: Item, l: Ledger, rules: Rules): Ledger
    requires Sane(item) && Reason(item, l, rules).None?
  {
    if item.system then l
    else
      Affordable(item, l, rules);
      var o := Transition(l.balances, l.nonces, item.msg, item.meta, rules, item.evm, Intrinsic(item.msg, rules));
      Ledger(o.balances, o.nonces, l.pool - o.usedGas, l.used + o.usedGas, l.receipts + [Receipt(o.usedGas, l.used + o.usedGas, o.failed)])
  }

  lemma Affordable(item: Item, l: Ledger, rules: Rules)
    requires (item.meta.Payer? ==> item.meta.feePercent <= FEE_BASE) && !item.system && Reason(item, l, rules).None?
    ensures Intrinsic(item.msg, rules) <= item.msg.gas <= l.pool
  {
    hide Intrinsic, DataGas, PreCheckError;
  }

  /** The ledger after the first k items, if none of them ends the block. */
  ghost function LedgerAfter(items: seq<Item>, l: Ledger, rules: Rules, k: nat): Option<Ledger>
    requires k <= |items| && AllSane(items)
  {
    if k == 0 then Some(l)
    else
      var was := LedgerAfter(items, l, rules, k - 1);
      if was.None? || Reason(items[k - 1], was.value, rules).Some? then None
      else Some(Apply(items[k - 1], was.value, rules))
  }

  lemma LedgerNext(items: seq<Item>, l: Ledger, rules: Rules, k: nat)
    requires k < |items| && AllSane(items) && LedgerAfter(items, l, rules, k).Some?
    ensures var was := LedgerAfter(items, l, rules, k).value;
      LedgerAfter(items, l, rules, k + 1) == if Reason(items[k], was, rules).Some? then None else Some(Apply(items[k], was, rules))
  {}

  lemma {:induction false} StaysEnded(items: seq<Item>, l: Ledger, rules: Rules, k: nat, j: nat)
    requires k <= j <= |items| && AllSane(items) && LedgerAfter(items, l, rules, k).None?
    ensures LedgerAfter(items, l, rules, j).None?
    decreases j
  {
    if k < j { StaysEnded(items, l, rules, k, j - 1); }
  }

  /** At most one item is the first to end the block. */
  lemma FirstFailureUnique(items: seq<Item>, l: Ledger, rules: Rules, i: nat, j: nat)
    requires i < |items| && j < |items| && AllSane(items)
    requires EndsAt(items, l, rules, i) && EndsAt(items, l, rules, j)
    ensures i == j
  {
    if i < j { StaysEnded(items, l, rules, i + 1, j); }
    if j < i { StaysEnded(items, l, rules, j + 1, i); }
  }

  ghost predicate EndsAt(items: seq<Item>, l: Ledger, rules: Rules, i: nat)
    requires i < |items| && AllSane(items)
  {
    LedgerAfter(items, l, rules, i).Some? && Reason(items[i], LedgerAfter(items, l, rules, i).value, rules).Some?
  }

  // ----- no message runs twice in a block -----

  /** Genuine transactions, which no EVM run of the block makes uncounted. */
  ghost predicate AllCount(items: seq<Item>) {
    forall i :: 0 <= i < |items| ==> !items[i].msg.isFake && Settlement.Counts(items[i].evm, items[i].msg)
  }

  lemma ItemCounts(items: seq<Item>, l: Ledger, rules: Rules, k: nat)
    requires k < |items| && AllSane(items) && AllCount(items) && LedgerAfter(items, l, rules, k + 1).Some?
    ensures LedgerAfter(items, l, rules, k).Some?
    ensures var was, next := LedgerAfter(items, l, rules, k).value, LedgerAfter(items, l, rules, k + 1).value;
      && (forall a :: NonceOf(next.nonces, a) >= NonceOf(was.nonces, a))
      && (!items[k].system ==> items[k].msg.nonce == NonceOf(was.nonces, items[k].msg.from) < NonceOf(next.nonces, items[k].msg.from))
  {
    var item, was := items[k], LedgerAfter(items, l, rules, k).value;
    ReasonIs(item, was, rules);
    hide Refusal, Transition, Intrinsic, Apply;
    if !item.system {
      Settlement.NoReplay(was.balances, was.nonces, was.pool, item.msg, item.meta, rules, item.hasCode, item.canCreate, item.evm,
                          was.balances, 0, 0, rules);
    }
  }

  lemma {:induction false} NoncesGrow(items: seq<Item>, l: Ledger, rules: Rules, i: nat, j: nat, a: Address)
    requires i <= j <= |items| && AllSane(items) && AllCount(items) && LedgerAfter(items, l, rules, j).Some?
    ensures LedgerAfter(items, l, rules, i).Some?
    ensures NonceOf(LedgerAfter(items, l, rules, i).value.nonces, a) <= NonceOf(LedgerAfter(items, l, rules, j).value.nonces, a)
    decreases j
  {
    hide LedgerAfter, AllSane, AllCount;
    if i < j {
      ItemCounts(items, l, rules, j - 1);
      NoncesGrow(items, l, rules, i, j - 1, a);
    }
  }

  /** In a block that is processed to the end, each sender's nonces increase from one of its
      transactions to the next, so none is applied twice. */
  lemma EachRunsOnce(items: seq<Item>, l: Ledger, rules: Rules, i: nat, j: nat)
    requires AllSane(items) && AllCount(items) && LedgerAfter(items, l, rules, |items|).Some?
    requires i < j < |items| && !items[i].system && !items[j].system && items[i].msg.from == items[j].msg.from
    ensures items[i].msg.nonce < items[j].msg.nonce
  {
    hide LedgerAfter, AllSane, AllCount;
    var a := items[i].msg.from;
    NoncesGrow(items, l, rules, i + 1, |items|, a);
    NoncesGrow(items, l, rules, j + 1, |items|, a);
    ItemCounts(items, l, rules, i);
    ItemCounts(items, l, rules, j);
    NoncesGrow(items, l, rules, i + 1, j, a);
  }

  class StateProcessor {
    const rules: Rules

    constructor (rules: Rules)
      ensures this.rules == rules
    {
      this.rules := rules;
    }

    /** applyTransaction. */
    method ApplyTransaction(item: Item, gp: GasPool, state: StateDB, usedGas: nat) returns (r: Result<Receipt>, total: nat)
      requires Sane(item) && gp.gas + usedGas <= MAX_UINT64
      modifies gp, state
      ensures r.Ok? ==>
        && total == usedGas + r.value.gasUsed && gp.gas + total == old(gp.gas) + usedGas
        && r.value.cumulativeGasUsed == total && r.value.gasUsed <= item.msg.gas
        && var change := Sum(state.balances) - (Sum(old(state.balances)) - r.value.gasUsed * (item.msg.gasPrice - EffectiveTip(item.msg, rules)));
        && (!item.meta.Payer? ==> change == 0) && -1 <= change <= 1
      ensures var refusal := Refusal(old(state.balances), old(state.Nonce(item.msg.from)), old(gp.gas), item.msg, item.meta, rules, item.hasCode, item.canCreate);
        (r.Err? <==> refusal.Some?) && (r.Err? ==> total == usedGas && r.error == refusal.value)
      ensures r.Ok? ==>
        && Intrinsic(item.msg, rules) <= item.msg.gas
        && var o := Transition(old(state.balances), old(state.nonces), item.msg, item.meta, rules, item.evm, Intrinsic(item.msg, rules));
        state.balances == o.balances && state.nonces == o.nonces && r.value == Receipt(o.usedGas, total, o.failed)
    {
      hide Sum, EffectiveTip, Frugal, Honest, Transition, Refusal, Intrinsic;
      total := usedGas;
      var st := new StateTransition(gp, item.msg, item.meta, rules, state);
      ghost var balances, nonces := state.balances, state.nonces;
      var result := st.TransitionDb(item.hasCode, item.canCreate, item.evm);
      if result.Err? {
        return Err(result.error), total;
      }
      Conservation(balances, nonces, item.msg, item.meta, rules, item.evm, Intrinsic(item.msg, rules));
      total := usedGas + result.value.usedGas;
      return Ok(Receipt(result.value.usedGas, total, result.value.failed)), total;
    }

    /** The transaction loop of Process: system transactions are set aside, and the first
        item with a reason to fail ends the block, at the index and with the reason that are
        reported. */
    method Process(items: seq<Item>, gasLimit: uint64, state: StateDB)
      returns (r: Result<seq<Receipt>>, usedGas: nat, gp: GasPool, at: nat)
      requires AllSane(items)
      modifies state
      ensures fresh(gp)
      ensures var start := Ledger(old(state.balances), old(state.nonces), gasLimit, 0, []);
        && (r.Ok? <==> LedgerAfter(items, start, rules, |items|).Some?)
        && (r.Ok? ==> LedgerAfter(items, start, rules, |items|) == Some(Ledger(state.balances, state.nonces, gp.gas, usedGas, r.value)))
        && (r.Err? ==> at < |items| && EndsAt(items, start, rules, at)
                       && Reason(items[at], LedgerAfter(items, start, rules, at).value, rules) == Some(r.error))
      ensures r.Ok? ==>
        && |r.value| == |Common(items)|
        && usedGas == TotalGas(r.value) && gp.gas + usedGas == gasLimit
        && Running(r.value)
        && Accounted(old(Sum(state.balances)), Sum(state.balances), Common(items), r.value, rules)
    {
      hide Sum, EffectiveTip, Accounted, Running, Sane, Common, TotalGas, Metas, Reason, Apply, LedgerAfter;
      gp := new GasPool(0);
      gp.AddGas(gasLimit);
      usedGas := 0;
      var receipts := [];
      ghost var before := Sum(state.balances);
      ghost var start := Ledger(state.balances, state.nonces, gasLimit, 0, []);
      NoItems(before, rules);
      NoLedger(items, start, rules);
      for i := 0 to |items|
        invariant fresh(gp) && gp.gas + usedGas == gasLimit && usedGas == TotalGas(receipts)
        invariant LedgerAfter(items, start, rules, i) == Some(Ledger(state.balances, state.nonces, gp.gas, usedGas, receipts))
        invariant Running(receipts)
        invariant Accounted(before, Sum(state.balances), Common(items[..i]), receipts, rules)
      {
        var item := items[i];
        ghost var l := Ledger(state.balances, state.nonces, gp.gas, usedGas, receipts);
        CommonNext(items, i);
        LedgerNext(items, start, rules, i);
        ReasonIs(item, l, rules);
        if item.system {
          continue;
        }
        if item.refused {
          StaysEnded(items, start, rules, i + 1, |items|);
          return Err(Refused), usedGas, gp, i;
        }
        ghost var was := Sum(state.balances);
        var receipt, total := ApplyTransaction(item, gp, state, usedGas);
        if receipt.Err? {
          StaysEnded(items, start, rules, i + 1, |items|);
          return Err(receipt.error), usedGas, gp, i;
        }
        RunningNext(receipts, receipt.value);
        AccountedNext(before, was, Sum(state.balances), Common(items[..i]), receipts, rules, item, receipt.value);
        usedGas := total;
        receipts := receipts + [receipt.value];
      }
      assert items[..|items|] == items;
      AccountedSize(before, Sum(state.balances), Common(items), receipts, rules);
      return Ok(receipts), usedGas, gp, |items|;
    }
  }

  lemma NoLedger(items: seq<Item>, l: Ledger, rules: Rules)
    requires AllSane(items)
    ensures LedgerAfter(items, l, rules, 0) == Some(l)
  {}

  /** The cases of one item. */
  lemma ReasonIs(item: Item, l: Ledger, rules: Rules)
    requires Sane(item)
    ensures item.system ==> Reason(item, l, rules).None? && Apply(item, l, rules) == l
    ensures !item.system && item.refused ==> Reason(item, l, rules) == Some(Refused)
    ensures !item.system && !item.refused ==>
      Reason(item, l, rules) == Refusal(l.balances, NonceOf(l.nonces, item.msg.from), l.pool, item.msg, item.meta, rules, item.hasCode, item.canCreate)
    ensures !item.system && Reason(item, l, rules).None? ==>
      && Intrinsic(item.msg, rules) <= item.msg.gas <= l.pool
      && var o := Transition(l.balances, l.nonces, item.msg, item.meta, rules, item.evm, Intrinsic(item.msg, rules));
      Apply(item, l, rules) == Ledger(o.balances, o.nonces, l.pool - o.usedGas, l.used + o.usedGas, l.receipts + [Receipt(o.usedGas, l.used + o.usedGas, o.failed)])
  {
    hide Refusal, Transition, Intrinsic;
    if !item.system && Reason(item, l, rules).None? { Affordable(item, l, rules); }
  }

  lemma CommonNext(items: seq<Item>, i: nat)
    requires i < |items|
    ensures Common(items[..i + 1]) == if items[i].system then Common(items[..i]) else Common(items[..i]) + [items[i]]
  {
    assert items[..i + 1][..i] == items[..i];
  }

  lemma NoItems(before: int, rules: Rules)
    ensures Accounted(before, before, Common([]), [], rules) && Running([]) && TotalGas([]) == 0
  {}

  lemma AccountedSize(before: int, after: int, items: seq<Item>, receipts: seq<Receipt>, rules: Rules)
    requires Accounted(before, after, items, receipts, rules)
    ensures |items| == |receipts|
  {}
}
