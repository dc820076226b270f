/** Who pays what for a message, and which messages are accepted, in plain arithmetic. */
module Settlement {
  import opened Transactions
  import opened StateTransitions

  /** The EVM changes a's balance by delta, whatever it starts from. */
  ghost predicate Adds(evm: Evm, a: Address, delta: int) {
    forall b, n, g :: Balance(evm(b, n, g).balances, a) == Balance(b, a) + delta
  }

  /** What is paid for the gas and not returned is within a wei of its exact part. */
  lemma NetShare(percent: nat, gas: nat, used: nat, price: nat, paid: int)
    requires percent <= FEE_BASE && used <= gas
    requires paid == Share(Cost(gas, price), percent) - Share(Cost(gas - used, price), percent)
    ensures 0 - 10000 < paid * 10000 - used * price * percent < 10000
  {
    FeeShareExact(percent, gas, gas - used, price);
  }

  /** An account's balance across a message, the EVM's part left open. */
  lemma BalanceAcross(b: Balances, nonces: Nonces, msg: Message, meta: Meta, rules: Rules, evm: Evm, intrinsic: uint64, a: Address, delta: int)
    requires (meta.Payer? ==> meta.feePercent <= FEE_BASE) && intrinsic <= msg.gas && Frugal(evm) && Adds(evm, a, delta)
    ensures var o := Transition(b, nonces, msg, meta, rules, evm, intrinsic);
      var s, back := SplitOf(meta, Cost(msg.gas, msg.gasPrice)), SplitOf(meta, Cost(msg.gas - o.usedGas, msg.gasPrice));
      Balance(o.balances, a) == Balance(b, a) + delta
        - (if meta.Payer? && a == meta.feeAddress then s.fee - back.fee else 0) - (if a == msg.from then s.self - back.self else 0)
        + (if a == Recipient(rules) then o.usedGas * EffectiveTip(msg, rules) else 0)
  {
    PayerEnds(b, nonces, msg, meta, rules, evm, intrinsic, a);
    hide Share, SplitOf, EffectiveTip, Cost, Transition, Recipient;
  }

  /** The fee account of a meta transaction bears feePercent in 10000 of what the used gas
      costs, to within a wei. */
  lemma FeeAccountPays(b: Balances, nonces: Nonces, msg: Message, meta: Meta, rules: Rules, evm: Evm, intrinsic: uint64, delta: int)
    requires meta.Payer? && meta.feePercent <= 10000 && intrinsic <= msg.gas && Frugal(evm) && Adds(evm, meta.feeAddress, delta)
    requires meta.feeAddress != msg.from && meta.feeAddress != if rules.congress then rules.feeRecorder else rules.coinbase
    ensures var o := Transition(b, nonces, msg, meta, rules, evm, intrinsic);
      var paid := Balance(b, meta.feeAddress) + delta - Balance(o.balances, meta.feeAddress);
      0 - 10000 < paid * 10000 - o.usedGas * msg.gasPrice * meta.feePercent < 10000
  {
    BalanceAcross(b, nonces, msg, meta, rules, evm, intrinsic, meta.feeAddress, delta);
    hide Share, Transition, EffectiveTip, Cost, Adds;
    var o := Transition(b, nonces, msg, meta, rules, evm, intrinsic);
    NetShare(meta.feePercent, msg.gas, o.usedGas, msg.gasPrice, Balance(b, meta.feeAddress) + delta - Balance(o.balances, meta.feeAddress));
  }

  /** ... and its sender the rest; the sender of a plain message pays for the used gas to the
      wei. */
  lemma SenderPays(b: Balances, nonces: Nonces, msg: Message, meta: Meta, rules: Rules, evm: Evm, intrinsic: uint64, delta: int)
    requires (meta.Payer? ==> meta.feePercent <= 10000 && meta.feeAddress != msg.from)
    requires intrinsic <= msg.gas && Frugal(evm) && Adds(evm, msg.from, delta)
    requires msg.from != if rules.congress then rules.feeRecorder else rules.coinbase
    ensures var o := Transition(b, nonces, msg, meta, rules, evm, intrinsic);
      var paid := Balance(b, msg.from) + delta - Balance(o.balances, msg.from);
      if meta.Payer? then 0 - 10000 < paid * 10000 - o.usedGas * msg.gasPrice * (10000 - meta.feePercent) < 10000
      else paid == o.usedGas * msg.gasPrice
  {
    BalanceAcross(b, nonces, msg, meta, rules, evm, intrinsic, msg.from, delta);
    hide Share, Transition, EffectiveTip, Adds;
    var o := Transition(b, nonces, msg, meta, rules, evm, intrinsic);
    if meta.Payer? {
      NetShare(10000 - meta.feePercent, msg.gas, o.usedGas, msg.gasPrice, Balance(b, msg.from) + delta - Balance(o.balances, msg.from));
    } else {
      BurntProduct(msg.gas, msg.gas - o.usedGas, msg.gasPrice, 0);
    }
  }

  /** The tip goes to the fee recorder or the miner, and nobody else's balance changes by more
      than what the EVM does to it. */
  lemma RecipientGains(b: Balances, nonces: Nonces, msg: Message, meta: Meta, rules: Rules, evm: Evm, intrinsic: uint64, a: Address, delta: int)
    requires (meta.Payer? ==> meta.feePercent <= 10000 && meta.feeAddress != a) && msg.from != a
    requires intrinsic <= msg.gas && Frugal(evm) && Adds(evm, a, delta)
    ensures var o := Transition(b, nonces, msg, meta, rules, evm, intrinsic);
      var spare := msg.gasFeeCap - rules.baseFee;
      var tip: int := if !rules.london then msg.gasPrice else if msg.gasTipCap < spare then msg.gasTipCap else spare;
      Balance(o.balances, a) == Balance(b, a) + delta
        + if (rules.congress && a == rules.feeRecorder) || (!rules.congress && a == rules.coinbase) then o.usedGas * tip else 0
  {
    BalanceAcross(b, nonces, msg, meta, rules, evm, intrinsic, a, delta);
    hide Share, Transition, Adds, SplitOf;
  }

  /** The run of a message: a call happens on a raised nonce, and the gas it uses is lowered by
      the EVM's refund counter, by a fifth of it at most (by half before London). */
  ghost predicate RunsOn(evm: Evm, charged: Balances, raised: Nonces, nonces: Nonces, msg: Message, rules: Rules, intrinsic: uint64, o: Outcome)
    requires intrinsic <= msg.gas
  {
    var ran := evm(charged, raised, msg.gas - intrinsic);
    var most := (msg.gas - ran.left) / if rules.london then 5 else 2;
    && (forall a :: NonceOf(raised, a) ==
          if a == msg.from && msg.to.Some? then (NonceOf(nonces, a) + 1) % 0x1_0000_0000_0000_0000 else NonceOf(nonces, a))
    && o.usedGas == msg.gas - ran.left - (if ran.refund < most then ran.refund else most)
    && o.nonces == ran.nonces && o.failed == ran.failed
  }

  lemma GasMeans(b: Balances, nonces: Nonces, msg: Message, meta: Meta, rules: Rules, evm: Evm, intrinsic: uint64)
    requires (meta.Payer? ==> meta.feePercent <= FEE_BASE) && intrinsic <= msg.gas && Frugal(evm)
    ensures exists charged, raised ::
      RunsOn(evm, charged, raised, nonces, msg, rules, intrinsic, Transition(b, nonces, msg, meta, rules, evm, intrinsic))
  {
    hide Share, SplitOf, Charge, Cost, Settle, NonceOf;
    var charged := Charge(b, meta, msg.from, SplitOf(meta, Cost(msg.gas, msg.gasPrice)));
    var raised := Raised(nonces, msg);
    var ran := Ran(b, nonces, msg, meta, evm, intrinsic);
    var o := Transition(b, nonces, msg, meta, rules, evm, intrinsic);
    RaisedIs(nonces, msg);
    Used(ran, msg, meta, rules);
    hide Raised;
    assert o == Settle(ran, msg, meta, rules) && ran == evm(charged, raised, msg.gas - intrinsic);
    hide Ran, Transition, Frugal;
    assert RunsOn(evm, charged, raised, nonces, msg, rules, intrinsic, o);
  }

  lemma RaisedIs(nonces: Nonces, msg: Message)
    ensures forall a ::
      NonceOf(Raised(nonces, msg), a) == (if a == msg.from && msg.to.Some? then (NonceOf(nonces, a) + 1) % 0x1_0000_0000_0000_0000 else NonceOf(nonces, a))
  {}

  lemma Used(ran: EvmResult, msg: Message, meta: Meta, rules: Rules)
    requires (meta.Payer? ==> meta.feePercent <= FEE_BASE) && ran.left <= msg.gas
    ensures var o, most := Settle(ran, msg, meta, rules), (msg.gas - ran.left) / if rules.london then 5 else 2;
      && o.usedGas == msg.gas - ran.left - (if ran.refund < most then ran.refund else most)
      && o.nonces == ran.nonces && o.failed == ran.failed
  {
    hide Share, SplitOf, Repay, EffectiveTip, Credit, Cost;
    RefundIs(msg.gas - ran.left, Quotient(rules), ran.refund);
    hide Refund;
  }

  lemma RefundIs(used: nat, quotient: nat, counter: nat)
    requires quotient > 1
    ensures Refund(used, quotient, counter) == if counter < used / quotient then counter else used / quotient
  {}

  // ----- acceptance -----

  /** What a byte of data adds, and what an access list costs. */
  lemma IntrinsicMeans(data: seq<byte>, x: byte, creation: bool, homestead: bool, eip2028: bool, addresses: nat, keys: nat)
    ensures DataGas([], creation, homestead, eip2028) == if creation && homestead then 53000 else 21000
    ensures DataGas(data + [x], creation, homestead, eip2028)
      == DataGas(data, creation, homestead, eip2028) + if x == 0 then 4 else if eip2028 then 16 else 68
    ensures AccessGas(None) == 0 && AccessGas(Some(AccessList(addresses, keys))) == 2400 * addresses + 1900 * keys
  {
    assert (data + [x])[..|data|] == data;
    NonZeroBound(data);
  }

  /** The fee clauses: none before London, and none for a call without any fee when the base
      fee is switched off; else the tip is within the cap, and the cap covers the base fee. */
  ghost predicate FeesFit(msg: Message, rules: Rules) {
    || !rules.london
    || (rules.noBaseFee && msg.gasFeeCap == 0 && msg.gasTipCap == 0)
    || (msg.gasTipCap <= msg.gasFeeCap && rules.baseFee <= msg.gasFeeCap < 0x1_0000_0000_0000_0000_0000_0000_0000_0000_0000_0000_0000_0000_0000_0000_0000_0000)
  }

  /** What the purchase takes from the sender: everything of a plain message, else its share,
      and the fee account's if it is that account too. */
  function Taken(msg: Message, meta: Meta): int {
    var all := msg.gas * msg.gasPrice;
    if !meta.Payer? then all
    else
      all * (10000 - meta.feePercent) / 10000 + if meta.feeAddress == msg.from then all * meta.feePercent / 10000 else 0
  }

  /** A message is accepted just when all of this holds, in whatever order it is checked. */
  ghost predicate Acceptable(b: Balances, nonce: uint64, pool: uint64, msg: Message, meta: Meta, rules: Rules, hasCode: bool, canCreate: bool) {
    var all, dataGas := msg.gas * msg.gasPrice, DataGas(msg.data, msg.to.None?, rules.homestead, rules.istanbul);
    && (msg.isFake || (msg.nonce == nonce < MAX_UINT64 && !hasCode))
    && FeesFit(msg, rules) && !meta.BadMeta?
    && (if meta.Payer? then Balance(b, meta.feeAddress) >= all * meta.feePercent / 10000 && Balance(b, msg.from) >= all * (10000 - meta.feePercent) / 10000
        else Balance(b, msg.from) >= msg.gas * msg.gasFeeCap + msg.value)
    && msg.gas <= pool
    && dataGas <= MAX_UINT64 && (dataGas + AccessGas(msg.accessList)) % 0x1_0000_0000_0000_0000 <= msg.gas
    && (msg.value == 0 || Balance(b, msg.from) - Taken(msg, meta) >= msg.value)
    && (msg.to.Some? || canCreate)
  }

  lemma AcceptedMeans(b: Balances, nonce: uint64, pool: uint64, msg: Message, meta: Meta, rules: Rules, hasCode: bool, canCreate: bool)
    requires meta.Payer? ==> meta.feePercent <= 10000
    ensures Refusal(b, nonce, pool, msg, meta, rules, hasCode, canCreate).None?
      <==> Acceptable(b, nonce, pool, msg, meta, rules, hasCode, canCreate)
  {
    hide DataGas, AccessGas;
    AcceptedEarly(msg, meta, rules, nonce, hasCode);
    FundsMean(b, msg, meta);
    hide PreCheckError, Charge, Funded, SplitOf, FeesFit, Taken;
  }

  lemma AcceptedEarly(msg: Message, meta: Meta, rules: Rules, nonce: uint64, hasCode: bool)
    ensures PreCheckError(msg, meta, rules, nonce, hasCode).None? <==>
      (msg.isFake || (msg.nonce == nonce < MAX_UINT64 && !hasCode)) && FeesFit(msg, rules) && !meta.BadMeta?
  {}

  lemma FundsMean(b: Balances, msg: Message, meta: Meta)
    requires meta.Payer? ==> meta.feePercent <= 10000
    ensures var all := msg.gas * msg.gasPrice;
      Funded(b, msg, meta) <==>
        if meta.Payer? then Balance(b, meta.feeAddress) >= all * meta.feePercent / 10000 && Balance(b, msg.from) >= all * (10000 - meta.feePercent) / 10000
        else Balance(b, msg.from) >= msg.gas * msg.gasFeeCap + msg.value
    ensures Balance(Charge(b, meta, msg.from, SplitOf(meta, Cost(msg.gas, msg.gasPrice))), msg.from) == Balance(b, msg.from) - Taken(msg, meta)
  {}

  // ----- no message runs twice -----

  /** The EVM never lowers a nonce, and raises the sender's when it creates a contract. */
  ghost predicate Counts(evm: Evm, msg: Message) {
    forall b, n, g, a :: NonceOf(evm(b, n, g).nonces, a)
      >= NonceOf(n, a) + if a == msg.from && msg.to.None? && NonceOf(n, a) < MAX_UINT64 then 1 else 0
  }

  /** An accepted message raises its sender's nonce past its own, so that it is refused from
      then on, whatever the state is otherwise; and no nonce falls. */
  lemma NoReplay(b: Balances, nonces: Nonces, pool: uint64, msg: Message, meta: Meta, rules: Rules, hasCode: bool, canCreate: bool, evm: Evm,
                 later: Balances, nonce: uint64, laterPool: uint64, laterRules: Rules)
    requires (meta.Payer? ==> meta.feePercent <= FEE_BASE) && Frugal(evm) && Counts(evm, msg) && !msg.isFake
    requires Refusal(b, NonceOf(nonces, msg.from), pool, msg, meta, rules, hasCode, canCreate).None?
    ensures Intrinsic(msg, rules) <= msg.gas
    ensures var o := Transition(b, nonces, msg, meta, rules, evm, Intrinsic(msg, rules));
      && msg.nonce == NonceOf(nonces, msg.from) < NonceOf(o.nonces, msg.from)
      && (forall a :: NonceOf(o.nonces, a) >= NonceOf(nonces, a))
      && (nonce >= NonceOf(o.nonces, msg.from) ==>
            Refusal(later, nonce, laterPool, msg, meta, laterRules, hasCode, canCreate) == Some(NonceTooLow))
  {
    hide DataGas, AccessGas, Transition, Intrinsic, Counts, Refusal;
    AcceptedNonce(b, NonceOf(nonces, msg.from), pool, msg, meta, rules, hasCode, canCreate);
    NoncesRise(b, nonces, msg, meta, rules, evm, Intrinsic(msg, rules));
    if nonce > msg.nonce { TooLow(later, nonce, laterPool, msg, meta, laterRules, hasCode, canCreate); }
  }

  lemma AcceptedNonce(b: Balances, nonce: uint64, pool: uint64, msg: Message, meta: Meta, rules: Rules, hasCode: bool, canCreate: bool)
    requires (meta.Payer? ==> meta.feePercent <= FEE_BASE) && !msg.isFake
    requires Refusal(b, nonce, pool, msg, meta, rules, hasCode, canCreate).None?
    ensures msg.nonce == nonce < MAX_UINT64 && Intrinsic(msg, rules) <= msg.gas
  {
    hide DataGas, AccessGas, Funded, Charge, SplitOf, Intrinsic, FeesFit;
    AcceptedEarly(msg, meta, rules, nonce, hasCode);
  }

  lemma TooLow(b: Balances, nonce: uint64, pool: uint64, msg: Message, meta: Meta, rules: Rules, hasCode: bool, canCreate: bool)
    requires (meta.Payer? ==> meta.feePercent <= FEE_BASE) && !msg.isFake && nonce > msg.nonce
    ensures Refusal(b, nonce, pool, msg, meta, rules, hasCode, canCreate) == Some(NonceTooLow)
  {
    hide Funded, Charge, SplitOf, LateRefusal;
  }

  lemma NoncesRise(b: Balances, nonces: Nonces, msg: Message, meta: Meta, rules: Rules, evm: Evm, intrinsic: uint64)
    requires (meta.Payer? ==> meta.feePercent <= FEE_BASE) && intrinsic <= msg.gas && Frugal(evm) && Counts(evm, msg)
    requires NonceOf(nonces, msg.from) < MAX_UINT64
    ensures var o := Transition(b, nonces, msg, meta, rules, evm, intrinsic);
      (forall a :: NonceOf(o.nonces, a) >= NonceOf(nonces, a)) && NonceOf(o.nonces, msg.from) > NonceOf(nonces, msg.from)
  {
    hide Transition, Frugal, NonceOf;
    GasMeans(b, nonces, msg, meta, rules, evm, intrinsic);
    var o := Transition(b, nonces, msg, meta, rules, evm, intrinsic);
    var charged, raised :| RunsOn(evm, charged, raised, nonces, msg, rules, intrinsic, o);
    RanCounts(evm, charged, raised, nonces, msg, rules, intrinsic, o);
  }

  lemma RanCounts(evm: Evm, charged: Balances, raised: Nonces, nonces: Nonces, msg: Message, rules: Rules, intrinsic: uint64, o: Outcome)
    requires intrinsic <= msg.gas && RunsOn(evm, charged, raised, nonces, msg, rules, intrinsic, o) && Counts(evm, msg)
    requires NonceOf(nonces, msg.from) < MAX_UINT64
    ensures (forall a :: NonceOf(o.nonces, a) >= NonceOf(nonces, a)) && NonceOf(o.nonces, msg.from) > NonceOf(nonces, msg.from)
  {
    hide NonceOf;
    var ran := evm(charged, raised, msg.gas - intrinsic);
    forall a ensures NonceOf(o.nonces, a) >= NonceOf(nonces, a) + if a == msg.from then 1 else 0 {
      assert NonceOf(ran.nonces, a) >= NonceOf(raised, a) + if a == msg.from && msg.to.None? && NonceOf(raised, a) < MAX_UINT64 then 1 else 0;
    }
  }
}
