/** StateTransition: buying gas, running a message and settling what was not used, for plain
    and for meta transactions. */
module StateTransitions {
  import opened Transactions
  import opened GasPools

  type byte = n: nat | n < 256

  datatype AccessList = AccessList(addresses: nat, storageKeys: nat)

  datatype Message = Message(from: Address, to: Option<Address>, nonce: uint64, gas: uint64,
                             gasPrice: nat, gasFeeCap: nat, gasTipCap: nat, value: nat,
                             data: seq<byte>, accessList: Option<AccessList>, isFake: bool)

  /** The chain rules and block context that matter here. */
  datatype Rules = Rules(homestead: bool, istanbul: bool, london: bool, congress: bool, noBaseFee: bool,
                         baseFee: nat, coinbase: Address, feeRecorder: Address)

  datatype Error =
    | NonceTooHigh | NonceTooLow | NonceMax | SenderNoEOA
    | FeeCapVeryHigh | TipVeryHigh | TipAboveFeeCap | FeeCapTooLow
    | BadMetaData | InsufficientFunds | GasLimitReached | GasUintOverflow | IntrinsicGasTooLow
    | InsufficientFundsForTransfer | UnauthorizedDeveloper | Refused

  datatype Result<T> = Ok(value: T) | Err(error: Error)

  /** What the meta-transaction prefix of the data decodes to, if it is there. */
  datatype Meta = NoMeta | BadMeta | Payer(feeAddress: Address, feePercent: nat)

  const META_PREFIX: seq<byte> := [0x23, 0x4d, 0x65, 0x74, 0x61, 0x54, 0x72, 0x61, 0x6e, 0x73, 0x61, 0x63, 0x74, 0x69, 0x6f, 0x6e, 0x23]

  predicate IsMetaTransaction(data: seq<byte>) { META_PREFIX <= data }

  /** What the data may decode to: a message without the prefix is plain, and one that has it
      is not; nothing behind the prefix does not decode. */
  predicate Decodes(data: seq<byte>, meta: Meta) {
    && (meta.NoMeta? <==> !IsMetaTransaction(data))
    && (meta.Payer? ==> |data| > |META_PREFIX| && meta.feePercent <= FEE_BASE)
  }

  type Balances = map<Address, int>

  type Nonces = map<Address, uint64>

  /** What running the message on the EVM leaves behind. */
  datatype EvmResult = EvmResult(left: uint64, balances: Balances, nonces: Nonces, refund: uint64, failed: bool)

  type Evm = (Balances, Nonces, uint64) -> EvmResult

  datatype ExecutionResult = ExecutionResult(usedGas: uint64, failed: bool)

  function Balance(b: Balances, a: Address): int { if a in b then b[a] else 0 }

  function NonceOf(nonces: Nonces, a: Address): uint64 { if a in nonces then nonces[a] else 0 }

  function Credit(b: Balances, a: Address, x: int): Balances { b[a := Balance(b, a) + x] }

  function Drop(b: Balances, a: Address): Balances { map k | k in b && k != a :: b[k] }

  /** All the money there is. */
  ghost function Sum(b: Balances): int
    decreases |b|
  {
    if b == map[] then 0
    else
      var a :| a in b;
      DropSize(b, a);
      b[a] + Sum(Drop(b, a))
  }

  lemma DropSize(b: Balances, a: Address)
    requires a in b
    ensures |Drop(b, a)| == |b| - 1
  {
    assert Drop(b, a).Keys == b.Keys - {a};
  }

  lemma {:induction false} SumPick(b: Balances, x: Address)
    requires x in b
    ensures Sum(b) == b[x] + Sum(Drop(b, x))
    decreases |b|
  {
    var a :| a in b && Sum(b) == b[a] + Sum(Drop(b, a));
    DropSize(b, a);
    DropSize(b, x);
    if a != x {
      SumPick(Drop(b, a), x);
      SumPick(Drop(b, x), a);
      assert Drop(Drop(b, a), x) == Drop(Drop(b, x), a);
    }
  }

  lemma SumCredit(b: Balances, a: Address, x: int)
    ensures Sum(Credit(b, a, x)) == Sum(b) + x
  {
    var r := Credit(b, a, x);
    SumPick(r, a);
    assert Drop(r, a) == Drop(b, a);
    if a in b { SumPick(b, a); } else { assert Drop(b, a) == b; }
  }

  /** An EVM that neither makes nor destroys money and returns no more gas than it was given. */
  ghost predicate Honest(evm: Evm) {
    forall b, n, g :: evm(b, n, g).left <= g && Sum(evm(b, n, g).balances) == Sum(b)
  }

  /** ... the second half of which is all that gas accounting needs. */
  ghost predicate Frugal(evm: Evm) { forall b, n, g :: evm(b, n, g).left <= g }

  // ----- intrinsic gas -----

  const TX_GAS: nat := 21000
  const TX_GAS_CONTRACT_CREATION: nat := 53000
  const TX_DATA_ZERO_GAS: nat := 4
  const TX_DATA_NON_ZERO_GAS_FRONTIER: nat := 68
  const TX_DATA_NON_ZERO_GAS_EIP2028: nat := 16
  const TX_ACCESS_LIST_ADDRESS_GAS: nat := 2400
  const TX_ACCESS_LIST_STORAGE_KEY_GAS: nat := 1900

  function NonZero(data: seq<byte>): nat {
    if data == [] then 0 else NonZero(data[..|data| - 1]) + if data[|data| - 1] != 0 then 1 else 0
  }

  /** What the data alone costs, without regard to overflow. */
  function DataGas(data: seq<byte>, creation: bool, homestead: bool, eip2028: bool): nat {
    var base := if creation && homestead then TX_GAS_CONTRACT_CREATION else TX_GAS;
    var perByte := if eip2028 then TX_DATA_NON_ZERO_GAS_EIP2028 else TX_DATA_NON_ZERO_GAS_FRONTIER;
    NonZeroBound(data);
    base + NonZero(data) * perByte + (|data| - NonZero(data)) * TX_DATA_ZERO_GAS
  }

  lemma {:induction false} NonZeroBound(data: seq<byte>)
    ensures NonZero(data) <= |data|
  {
    if data != [] { NonZeroBound(data[..|data| - 1]); }
  }

  function AccessGas(accessList: Option<AccessList>): nat {
    if accessList.None? then 0
    else accessList.value.addresses * TX_ACCESS_LIST_ADDRESS_GAS + accessList.value.storageKeys * TX_ACCESS_LIST_STORAGE_KEY_GAS
  }

  method CountNonZero(data: seq<byte>) returns (nz: nat)
    ensures nz == NonZero(data) <= |data|
  {
    nz := 0;
    for i := 0 to |data|
      invariant nz == NonZero(data[..i])
    {
      assert data[..i + 1][..i] == data[..i];
      if data[i] != 0 {
        nz := nz + 1;
      }
    }
    assert data[..|data|] == data;
    NonZeroBound(data);
  }

  /** The two unguarded uint64 additions. */
  method AddAccessGas(gas: uint64, accessList: Option<AccessList>) returns (r: uint64)
    ensures r == (gas + AccessGas(accessList)) % (MAX_UINT64 + 1)
  {
    r := gas;
    if accessList.Some? {
      r := (r + accessList.value.addresses * TX_ACCESS_LIST_ADDRESS_GAS) % (MAX_UINT64 + 1);
      WrapTwice(gas + accessList.value.addresses * TX_ACCESS_LIST_ADDRESS_GAS, accessList.value.storageKeys * TX_ACCESS_LIST_STORAGE_KEY_GAS);
      r := (r + accessList.value.storageKeys * TX_ACCESS_LIST_STORAGE_KEY_GAS) % (MAX_UINT64 + 1);
    }
  }

  /** IntrinsicGas: the data is guarded against overflow exactly; the access list is not. */
  method IntrinsicGas(data: seq<byte>, accessList: Option<AccessList>, creation: bool, homestead: bool, eip2028: bool)
    returns (r: Result<uint64>)
    requires |data| <= MAX_UINT64
    ensures r.Err? <==> DataGas(data, creation, homestead, eip2028) > MAX_UINT64
    ensures r.Err? ==> r.error == GasUintOverflow
    ensures r.Ok? ==> r.value == (DataGas(data, creation, homestead, eip2028) + AccessGas(accessList)) % (MAX_UINT64 + 1)
  {
    hide NonZero, AccessGas;
    var gas := if creation && homestead then TX_GAS_CONTRACT_CREATION else TX_GAS;
    NoBytes();
    if |data| > 0 {
      var nz := CountNonZero(data);
      var nonZeroGas := if eip2028 then TX_DATA_NON_ZERO_GAS_EIP2028 else TX_DATA_NON_ZERO_GAS_FRONTIER;
      Guard(gas, nz, nonZeroGas);
      if (MAX_UINT64 - gas) / nonZeroGas < nz {
        return Err(GasUintOverflow);
      }
      gas := gas + nz * nonZeroGas;
      var z := |data| - nz;
      Guard(gas, z, TX_DATA_ZERO_GAS);
      if (MAX_UINT64 - gas) / TX_DATA_ZERO_GAS < z {
        return Err(GasUintOverflow);
      }
      gas := gas + z * TX_DATA_ZERO_GAS;
    }
    gas := AddAccessGas(gas, accessList);
    return Ok(gas);
  }

  lemma NoBytes()
    ensures NonZero([]) == 0
  {}

  lemma Guard(gas: nat, n: nat, per: pos)
    requires gas <= MAX_UINT64
    ensures (MAX_UINT64 - gas) / per < n <==> gas + n * per > MAX_UINT64
  {
    var q := (MAX_UINT64 - gas) / per;
    assert q * per <= MAX_UINT64 - gas < q * per + per;
    if q < n {
      assert n * per >= (q + 1) * per;
    } else {
      assert n * per <= q * per;
    }
  }

  lemma WrapTwice(a: nat, b: nat)
    ensures (a % (MAX_UINT64 + 1) + b) % (MAX_UINT64 + 1) == (a + b) % (MAX_UINT64 + 1)
  {}

  // ----- fees -----

  const FEE_BASE: nat := 10000

  /** percent / 10000 of an amount, rounded down. */
  function Share(amount: nat, percent: nat): nat { amount * percent / FEE_BASE }

  /** What an amount of gas costs. */
  function Cost(gas: nat, price: nat): nat { gas * price }

  /** What is charged to the fee account and to the sender for an amount. */
  datatype Split = Split(fee: nat, self: nat)

  function SplitOf(meta: Meta, amount: nat): Split
    requires meta.Payer? ==> meta.feePercent <= FEE_BASE
  {
    if meta.Payer? then Split(Share(amount, meta.feePercent), Share(amount, FEE_BASE - meta.feePercent)) else Split(0, amount)
  }

  /** The two shares lose at most one wei of the amount, and nothing for a plain message. */
  lemma SplitLoses(meta: Meta, amount: nat)
    requires meta.Payer? ==> meta.feePercent <= FEE_BASE
    ensures var s := SplitOf(meta, amount);
      amount - 1 <= s.fee + s.self <= amount && (!meta.Payer? ==> s.fee + s.self == amount)
  {
    if meta.Payer? {
      assert amount * meta.feePercent + amount * (FEE_BASE - meta.feePercent) == amount * FEE_BASE;
    }
  }

  /** A refund on a smaller amount never exceeds the charge, for either payer. */
  lemma SplitMono(meta: Meta, small: nat, large: nat)
    requires (meta.Payer? ==> meta.feePercent <= FEE_BASE) && small <= large
    ensures SplitOf(meta, small).fee <= SplitOf(meta, large).fee && SplitOf(meta, small).self <= SplitOf(meta, large).self
  {
    if meta.Payer? {
      MulMono(small, large, meta.feePercent);
      MulMono(small, large, FEE_BASE - meta.feePercent);
    }
  }

  lemma MulMono(a: nat, b: nat, c: nat)
    requires a <= b
    ensures a * c <= b * c
  {}

  /** The fee account's net cost is within one wei of its exact share of the fee. */
  lemma FeeShareExact(percent: nat, gas: nat, left: nat, price: nat)
    requires percent <= FEE_BASE && left <= gas
    ensures var net := Share(gas * price, percent) - Share(left * price, percent);
      0 - FEE_BASE < net * FEE_BASE - (gas - left) * price * percent < FEE_BASE
  {
    assert (gas - left) * price * percent == gas * price * percent - left * price * percent;
  }

  function EffectiveTip(msg: Message, rules: Rules): int {
    if !rules.london then msg.gasPrice
    else if msg.gasTipCap <= msg.gasFeeCap - rules.baseFee then msg.gasTipCap else msg.gasFeeCap - rules.baseFee
  }

  /** AsMessage's gas price when it is given the base fee. */
  function PriceAt(tipCap: nat, feeCap: nat, baseFee: nat): nat { if tipCap + baseFee <= feeCap then tipCap + baseFee else feeCap }

  function Recipient(rules: Rules): Address { if rules.congress then rules.feeRecorder else rules.coinbase }

  class StateDB {
    var balances: Balances
    var nonces: Nonces
    var refund: uint64

    function Nonce(a: Address): uint64 reads this { NonceOf(nonces, a) }

    method AddBalance(a: Address, x: int)
      modifies this`balances
      ensures balances == Credit(old(balances), a, x)
    {
      balances := Credit(balances, a, x);
    }

    method SubBalance(a: Address, x: int)
      modifies this`balances
      ensures balances == Credit(old(balances), a, 0 - x)
    {
      balances := Credit(balances, a, 0 - x);
    }
  }

  /** Charging s to the payers of msg (to the sender alone unless it is a meta transaction). */
  function Charge(b: Balances, meta: Meta, from: Address, s: Split): Balances {
    if meta.Payer? then Credit(Credit(b, meta.feeAddress, 0 - s.fee), from, 0 - s.self) else Credit(b, from, 0 - s.self)
  }

  function Repay(b: Balances, meta: Meta, from: Address, s: Split): Balances {
    if meta.Payer? then Credit(Credit(b, meta.feeAddress, s.fee), from, s.self) else Credit(b, from, s.self)
  }

  lemma ChargeSum(b: Balances, meta: Meta, from: Address, s: Split)
    requires !meta.Payer? ==> s.fee == 0
    ensures Sum(Charge(b, meta, from, s)) == Sum(b) - s.fee - s.self
    ensures Sum(Repay(b, meta, from, s)) == Sum(b) + s.fee + s.self
  {
    hide Sum, Credit;
    if meta.Payer? {
      SumCredit(b, meta.feeAddress, 0 - s.fee);
      SumCredit(Credit(b, meta.feeAddress, 0 - s.fee), from, 0 - s.self);
      SumCredit(b, meta.feeAddress, s.fee);
      SumCredit(Credit(b, meta.feeAddress, s.fee), from, s.self);
    } else {
      SumCredit(b, from, 0 - s.self);
      SumCredit(b, from, s.self);
    }
  }

  lemma SharesAre(amount: nat, percent: nat)
    requires percent <= FEE_BASE
    ensures Share(amount, percent) == amount * percent / 10000 && Share(amount, FEE_BASE - percent) == amount * (10000 - percent) / 10000
  {}

  lemma RepaidIs(b: Balances, meta: Meta, from: Address, amount: nat)
    requires meta.Payer? && meta.feePercent <= FEE_BASE && meta.feeAddress != from
    ensures var after := Repay(b, meta, from, SplitOf(meta, amount));
      && Balance(after, meta.feeAddress) == Balance(b, meta.feeAddress) + amount * meta.feePercent / 10000
      && Balance(after, from) == Balance(b, from) + amount * (10000 - meta.feePercent) / 10000
  {
    SharesAre(amount, meta.feePercent);
    hide Share;
  }

  /** What a successful transition computes from the balances and nonces before it. */
  datatype Outcome = Outcome(balances: Balances, nonces: Nonces, usedGas: uint64, refunded: uint64, failed: bool)

  /** The gas used before the refund, and after it. */
  function Quotient(rules: Rules): nat { if rules.london then 5 else 2 }

  /** The refund counter, capped to a part of the gas used. */
  function Refund(used: nat, quotient: nat, counter: nat): (r: nat)
    requires quotient > 1
    ensures r <= used / quotient <= used && r <= counter
  {
    QuotientSmaller(used, quotient);
    if used / quotient > counter then counter else used / quotient
  }

  lemma QuotientSmaller(n: nat, q: nat)
    requires q > 0
    ensures 0 <= n / q <= n
  {
    var d := n / q;
    assert d * q <= n < d * q + q;
    assert d >= 0;
    MulMono(1, q, d);
  }

  /** Settling after the EVM has run: the capped refund counter, the unused gas paid back,
      and the tip. */
  function Settle(ran: EvmResult, msg: Message, meta: Meta, rules: Rules): (o: Outcome)
    requires (meta.Payer? ==> meta.feePercent <= FEE_BASE) && ran.left <= msg.gas
    ensures o.usedGas <= msg.gas - ran.left
  {
    var used := msg.gas - ran.left;
    var refund := Refund(used, Quotient(rules), ran.refund);
    var left := ran.left + refund;
    var repaid := Repay(ran.balances, meta, msg.from, SplitOf(meta, Cost(left, msg.gasPrice)));
    Outcome(Credit(repaid, Recipient(rules), (msg.gas - left) * EffectiveTip(msg, rules)), ran.nonces, msg.gas - left, refund, ran.failed)
  }

  /** A call consumes a nonce before it runs. */
  function Raised(nonces: Nonces, msg: Message): Nonces {
    if msg.to.None? then nonces else nonces[msg.from := (NonceOf(nonces, msg.from) + 1) % (MAX_UINT64 + 1)]
  }

  /** Running the message on what is left after buying the gas. */
  function Ran(balances: Balances, nonces: Nonces, msg: Message, meta: Meta, evm: Evm, intrinsic: uint64): EvmResult
    requires (meta.Payer? ==> meta.feePercent <= FEE_BASE) && intrinsic <= msg.gas
  {
    evm(Charge(balances, meta, msg.from, SplitOf(meta, Cost(msg.gas, msg.gasPrice))), Raised(nonces, msg), msg.gas - intrinsic)
  }

  ghost function Transition(balances: Balances, nonces: Nonces, msg: Message, meta: Meta, rules: Rules, evm: Evm, intrinsic: uint64): (o: Outcome)
    requires (meta.Payer? ==> meta.feePercent <= FEE_BASE) && intrinsic <= msg.gas && Frugal(evm)
    ensures o.usedGas <= msg.gas
  {
    Settle(Ran(balances, nonces, msg, meta, evm, intrinsic), msg, meta, rules)
  }

  lemma SettleMeans(ran: EvmResult, msg: Message, meta: Meta, rules: Rules)
    requires (meta.Payer? ==> meta.feePercent <= FEE_BASE) && ran.left <= msg.gas
    ensures var o := Settle(ran, msg, meta, rules);
      var s := SplitOf(meta, Cost(msg.gas - o.usedGas, msg.gasPrice));
      && o.usedGas <= msg.gas - ran.left && o.usedGas + o.refunded == msg.gas - ran.left
      && o.refunded <= (o.usedGas + o.refunded) / Quotient(rules)
      && Sum(o.balances) == Sum(ran.balances) + s.fee + s.self + o.usedGas * EffectiveTip(msg, rules)
  {
    hide Share, Charge, Repay, Credit, Sum, EffectiveTip, SplitOf, Refund;
    var o := Settle(ran, msg, meta, rules);
    var s := SplitOf(meta, Cost(msg.gas - o.usedGas, msg.gasPrice));
    PlainFee(meta, Cost(msg.gas - o.usedGas, msg.gasPrice));
    ChargeSum(ran.balances, meta, msg.from, s);
    SumCredit(Repay(ran.balances, meta, msg.from, s), Recipient(rules), o.usedGas * EffectiveTip(msg, rules));
  }

  /** Over a transition the money in the state changes by exactly what is burnt: the used gas
      times the part of the price that is not tip, give or take a wei of a meta transaction's
      two roundings; the refund is within its quotient; and no payer gets back more than it
      paid. */
  lemma Conservation(balances: Balances, nonces: Nonces, msg: Message, meta: Meta, rules: Rules, evm: Evm, intrinsic: uint64)
    requires (meta.Payer? ==> meta.feePercent <= FEE_BASE) && intrinsic <= msg.gas && Honest(evm)
    ensures var o := Transition(balances, nonces, msg, meta, rules, evm, intrinsic);
      var change := Sum(o.balances) - (Sum(balances) - o.usedGas * (msg.gasPrice - EffectiveTip(msg, rules)));
      && o.usedGas <= msg.gas && o.usedGas + o.refunded >= intrinsic
      && o.refunded <= (o.usedGas + o.refunded) / Quotient(rules)
      && (!meta.Payer? ==> change == 0) && -1 <= change <= 1
    ensures var o := Transition(balances, nonces, msg, meta, rules, evm, intrinsic);
      var bought, returned := SplitOf(meta, Cost(msg.gas, msg.gasPrice)), SplitOf(meta, Cost(msg.gas - o.usedGas, msg.gasPrice));
      && returned.fee <= bought.fee && returned.self <= bought.self
  {
    hide Share, SplitOf, Charge, Repay, Credit, Sum, EffectiveTip, Settle, Quotient;
    var o := Transition(balances, nonces, msg, meta, rules, evm, intrinsic);
    var all, back := Cost(msg.gas, msg.gasPrice), Cost(msg.gas - o.usedGas, msg.gasPrice);
    var ran := Ran(balances, nonces, msg, meta, evm, intrinsic);
    RanIs(balances, nonces, msg, meta, evm, intrinsic);
    SettleMeans(ran, msg, meta, rules);
    MulMono(msg.gas - o.usedGas, msg.gas, msg.gasPrice);
    SplitMono(meta, back, all);
    SplitLoses(meta, all);
    SplitLoses(meta, back);
    BurntProduct(msg.gas, msg.gas - o.usedGas, msg.gasPrice, EffectiveTip(msg, rules));
  }

  lemma RanIs(balances: Balances, nonces: Nonces, msg: Message, meta: Meta, evm: Evm, intrinsic: uint64)
    requires (meta.Payer? ==> meta.feePercent <= FEE_BASE) && intrinsic <= msg.gas && Honest(evm)
    ensures var ran, s := Ran(balances, nonces, msg, meta, evm, intrinsic), SplitOf(meta, Cost(msg.gas, msg.gasPrice));
      ran.left <= msg.gas - intrinsic && Sum(ran.balances) == Sum(balances) - s.fee - s.self
  {
    hide Share, Sum, Charge, SplitOf;
    PlainFee(meta, Cost(msg.gas, msg.gasPrice));
    ChargeSum(balances, meta, msg.from, SplitOf(meta, Cost(msg.gas, msg.gasPrice)));
  }

  lemma PlainFee(meta: Meta, amount: nat)
    requires meta.Payer? ==> meta.feePercent <= FEE_BASE
    ensures !meta.Payer? ==> SplitOf(meta, amount).fee == 0
  {}

  lemma BurntProduct(gas: nat, left: nat, price: nat, tip: int)
    requires left <= gas
    ensures (gas - left) * (price - tip) == gas * price - left * price - (gas - left) * tip
  {
    assert (gas - left) * (price - tip) == (gas - left) * price - (gas - left) * tip;
    assert (gas - left) * price == gas * price - left * price;
  }

  /** After London, a message priced against the block's base fee burns exactly the base fee. */
  lemma BaseFeeIsBurnt(msg: Message, rules: Rules)
    requires rules.london && msg.gasPrice == PriceAt(msg.gasTipCap, msg.gasFeeCap, rules.baseFee)
    ensures msg.gasPrice - EffectiveTip(msg, rules) == rules.baseFee
  {}

  /** preCheck's reasons to refuse, in the order it looks for them. */
  function PreCheckError(msg: Message, meta: Meta, rules: Rules, nonce: uint64, hasCode: bool): Option<Error> {
    if !msg.isFake && nonce < msg.nonce then Some(NonceTooHigh)
    else if !msg.isFake && nonce > msg.nonce then Some(NonceTooLow)
    else if !msg.isFake && nonce == MAX_UINT64 then Some(NonceMax)
    else if !msg.isFake && hasCode then Some(SenderNoEOA)
    else if rules.london && (!rules.noBaseFee || msg.gasFeeCap > 0 || msg.gasTipCap > 0) then
      if msg.gasFeeCap > MAX_UINT256 then Some(FeeCapVeryHigh)
      else if msg.gasTipCap > MAX_UINT256 then Some(TipVeryHigh)
      else if msg.gasFeeCap < msg.gasTipCap then Some(TipAboveFeeCap)
      else if msg.gasFeeCap < rules.baseFee then Some(FeeCapTooLow)
      else if meta.BadMeta? then Some(BadMetaData) else None
    else if meta.BadMeta? then Some(BadMetaData) else None
  }

  const MAX_UINT256: nat := 0xFFFF_FFFF_FFFF_FFFF_FFFF_FFFF_FFFF_FFFF_FFFF_FFFF_FFFF_FFFF_FFFF_FFFF_FFFF_FFFF

  /** Enough money to start: a plain sender must cover its fee cap and the value, a meta
      transaction's two payers only their shares at the actual price. */
  predicate Funded(b: Balances, msg: Message, meta: Meta)
    requires meta.Payer? ==> meta.feePercent <= FEE_BASE
  {
    if meta.Payer? then
      var s := SplitOf(meta, Cost(msg.gas, msg.gasPrice));
      Balance(b, meta.feeAddress) >= s.fee && Balance(b, msg.from) >= s.self
    else
      Balance(b, msg.from) >= msg.gas * msg.gasFeeCap + msg.value
  }

  function Intrinsic(msg: Message, rules: Rules): uint64 {
    (DataGas(msg.data, msg.to.None?, rules.homestead, rules.istanbul) + AccessGas(msg.accessList)) % (MAX_UINT64 + 1)
  }

  /** The clauses checked once the gas is bought. */
  function LateRefusal(charged: Balances, msg: Message, rules: Rules, canCreate: bool): Option<Error> {
    if DataGas(msg.data, msg.to.None?, rules.homestead, rules.istanbul) > MAX_UINT64 then Some(GasUintOverflow)
    else if msg.gas < Intrinsic(msg, rules) then Some(IntrinsicGasTooLow)
    else if msg.value > 0 && Balance(charged, msg.from) < msg.value then Some(InsufficientFundsForTransfer)
    else if msg.to.None? && !canCreate then Some(UnauthorizedDeveloper)
    else None
  }

  /** Why a message cannot be applied at all, if it cannot: the first clause it fails. */
  function Refusal(b: Balances, nonce: uint64, pool: uint64, msg: Message, meta: Meta, rules: Rules, hasCode: bool, canCreate: bool): Option<Error>
    requires meta.Payer? ==> meta.feePercent <= FEE_BASE
  {
    var early := PreCheckError(msg, meta, rules, nonce, hasCode);
    if early.Some? then early
    else if !Funded(b, msg, meta) then Some(InsufficientFunds)
    else if pool < msg.gas then Some(GasLimitReached)
    else
      LateRefusal(Charge(b, meta, msg.from, SplitOf(meta, Cost(msg.gas, msg.gasPrice))), msg, rules, canCreate)
  }

  /** preCheck goes through, and with it the gas is bought. */
  predicate Buys(b: Balances, nonce: uint64, pool: uint64, msg: Message, meta: Meta, rules: Rules, hasCode: bool)
    requires meta.Payer? ==> meta.feePercent <= FEE_BASE
  {
    PreCheckError(msg, meta, rules, nonce, hasCode).None? && Funded(b, msg, meta) && pool >= msg.gas
  }

  /** Buying the gas leaves both payers solvent, unless they are one account: the two shares
      of a meta transaction are checked one by one but taken together. */
  lemma SolventAfterCharge(b: Balances, msg: Message, meta: Meta)
    requires (meta.Payer? ==> meta.feePercent <= FEE_BASE) && msg.gasPrice <= msg.gasFeeCap && Funded(b, msg, meta)
    ensures var s := SplitOf(meta, Cost(msg.gas, msg.gasPrice));
      var after := Charge(b, meta, msg.from, s);
      Balance(after, msg.from) >= 0 && (meta.Payer? ==> Balance(after, meta.feeAddress) >= 0)
      <==> !(meta.Payer? && meta.feeAddress == msg.from && Balance(b, msg.from) < s.fee + s.self)
  {
    hide Share;
    MulMono(msg.gasPrice, msg.gasFeeCap, msg.gas);
  }

  /** Of the messages that are accepted, just these leave a payer overdrawn once the gas is
      bought: no value is moved, and the account that pays both shares cannot cover their
      sum. A message that moves value is refused when its sender is overdrawn. */
  lemma AcceptedOverdraws(b: Balances, nonce: uint64, pool: uint64, msg: Message, meta: Meta, rules: Rules, hasCode: bool, canCreate: bool)
    requires (meta.Payer? ==> meta.feePercent <= FEE_BASE) && msg.gasPrice <= msg.gasFeeCap
    requires Refusal(b, nonce, pool, msg, meta, rules, hasCode, canCreate).None?
    ensures Intrinsic(msg, rules) <= msg.gas
    ensures var after := Charge(b, meta, msg.from, SplitOf(meta, Cost(msg.gas, msg.gasPrice)));
      Balance(after, msg.from) < 0 || (meta.Payer? && Balance(after, meta.feeAddress) < 0) <==> Overdraws(b, msg, meta)
  {
    hide Share, Intrinsic, DataGas, PreCheckError;
    SolventAfterCharge(b, msg, meta);
  }

  ghost predicate Overdraws(b: Balances, msg: Message, meta: Meta)
    requires meta.Payer? ==> meta.feePercent <= FEE_BASE
  {
    var s := SplitOf(meta, Cost(msg.gas, msg.gasPrice));
    meta.Payer? && meta.feeAddress == msg.from && msg.value == 0 && Balance(b, msg.from) < s.fee + s.self
  }

  /** The EVM takes no account below zero, and an overdrawn one no further down. */
  ghost predicate Careful(evm: Evm) {
    forall b, n, g, a :: Balance(evm(b, n, g).balances, a) >= 0 || Balance(evm(b, n, g).balances, a) >= Balance(b, a)
  }

  /** What a payer has in the end: what the EVM left it, its part of the unused gas, and the
      tip if it is also the block's recipient. */
  lemma PayerEnds(balances: Balances, nonces: Nonces, msg: Message, meta: Meta, rules: Rules, evm: Evm, intrinsic: uint64, a: Address)
    requires (meta.Payer? ==> meta.feePercent <= FEE_BASE) && intrinsic <= msg.gas && Frugal(evm)
    ensures var o := Transition(balances, nonces, msg, meta, rules, evm, intrinsic);
      var back := SplitOf(meta, Cost(msg.gas - o.usedGas, msg.gasPrice));
      Balance(o.balances, a) == Balance(Ran(balances, nonces, msg, meta, evm, intrinsic).balances, a)
        + (if meta.Payer? && a == meta.feeAddress then back.fee else 0) + (if a == msg.from then back.self else 0)
        + (if a == Recipient(rules) then o.usedGas * EffectiveTip(msg, rules) else 0)
  {
    hide Share, SplitOf, EffectiveTip, Ran, Refund;
  }

  /** Every other accepted message also ends with its payers solvent. */
  lemma AcceptedEndsSolvent(b: Balances, nonces: Nonces, pool: uint64, msg: Message, meta: Meta, rules: Rules, hasCode: bool, canCreate: bool, evm: Evm)
    requires (meta.Payer? ==> meta.feePercent <= FEE_BASE) && msg.gasPrice <= msg.gasFeeCap && Frugal(evm) && Careful(evm)
    requires Refusal(b, NonceOf(nonces, msg.from), pool, msg, meta, rules, hasCode, canCreate).None?
    requires EffectiveTip(msg, rules) >= 0 && !Overdraws(b, msg, meta)
    ensures Intrinsic(msg, rules) <= msg.gas
    ensures var o := Transition(b, nonces, msg, meta, rules, evm, Intrinsic(msg, rules));
      Balance(o.balances, msg.from) >= 0 && (meta.Payer? ==> Balance(o.balances, meta.feeAddress) >= 0)
  {
    hide Share, SplitOf, EffectiveTip, Transition, Intrinsic, Refusal, Charge, Overdraws;
    AcceptedOverdraws(b, NonceOf(nonces, msg.from), pool, msg, meta, rules, hasCode, canCreate);
    var o := Transition(b, nonces, msg, meta, rules, evm, Intrinsic(msg, rules));
    TipIsPaid(o.usedGas, EffectiveTip(msg, rules));
    PayerEnds(b, nonces, msg, meta, rules, evm, Intrinsic(msg, rules), msg.from);
    if meta.Payer? { PayerEnds(b, nonces, msg, meta, rules, evm, Intrinsic(msg, rules), meta.feeAddress); }
  }

  lemma TipIsPaid(used: nat, tip: int)
    requires tip >= 0
    ensures used * tip >= 0
  {}

  /** One account that pays both shares ends overdrawn just when it cannot cover what is not
      paid back, if the EVM leaves its balance alone and it does not receive the tip. */
  lemma OverdrawnAtTheEnd(b: Balances, nonces: Nonces, msg: Message, meta: Meta, rules: Rules, evm: Evm, intrinsic: uint64)
    requires meta.Payer? && meta.feePercent <= FEE_BASE && meta.feeAddress == msg.from && intrinsic <= msg.gas && Frugal(evm)
    requires msg.from != Recipient(rules)
    requires var s := SplitOf(meta, Cost(msg.gas, msg.gasPrice));
      Balance(Ran(b, nonces, msg, meta, evm, intrinsic).balances, msg.from) == Balance(Charge(b, meta, msg.from, s), msg.from)
    ensures var o := Transition(b, nonces, msg, meta, rules, evm, intrinsic);
      var s, back := SplitOf(meta, Cost(msg.gas, msg.gasPrice)), SplitOf(meta, Cost(msg.gas - o.usedGas, msg.gasPrice));
      Balance(o.balances, msg.from) < 0 <==> Balance(b, msg.from) < (s.fee + s.self) - (back.fee + back.self)
  {
    hide Share, SplitOf, EffectiveTip, Transition, Ran;
    PayerEnds(b, nonces, msg, meta, rules, evm, intrinsic, msg.from);
  }

  /** The message is accepted from a solvent sender and leaves it overdrawn. */
  ghost predicate BecomesOverdrawn(b: Balances, nonces: Nonces, msg: Message, meta: Meta, rules: Rules, evm: Evm) {
    && Decodes(msg.data, meta) && Frugal(evm) && Careful(evm) && msg.gasPrice <= msg.gasFeeCap
    && Refusal(b, NonceOf(nonces, msg.from), msg.gas, msg, meta, rules, false, true).None?
    && Intrinsic(msg, rules) <= msg.gas && Balance(b, msg.from) >= 0
    && Balance(Transition(b, nonces, msg, meta, rules, evm, Intrinsic(msg, rules)).balances, msg.from) < 0
  }

  /** A message that moves no value and names its own sender as the payer of half the fee,
      when the sender has just that half. Its gas is what its data costs. */
  ghost predicate SelfPaid(b: Balances, msg: Message, meta: Meta, rules: Rules) {
    && Decodes(msg.data, meta) && meta == Payer(msg.from, 5000) && b == map[msg.from := msg.gas / 2]
    && msg == Message(msg.from, msg.to, 0, msg.gas, 1, 1, 1, 0, msg.data, None, false) && msg.to.Some?
    && msg.gas == DataGas(msg.data, false, true, true)
    && rules == Rules(true, true, true, true, false, 0, rules.coinbase, rules.feeRecorder) && rules.feeRecorder != msg.from
  }

  lemma HalfShares(gas: nat)
    ensures Share(Cost(gas, 1), 5000) == gas / 2 && Share(Cost(0, 1), 5000) == 0
  {}

  lemma SelfPaidGas(msg: Message, rules: Rules)
    requires msg.gas == DataGas(msg.data, false, true, true) && msg.accessList == None && msg.to.Some? && rules.homestead && rules.istanbul
    ensures Intrinsic(msg, rules) == msg.gas >= TX_GAS
  {
    NonZeroBound(msg.data);
    hide NonZero;
  }

  lemma OverdraftAccepted(b: Balances, msg: Message, meta: Meta, rules: Rules)
    requires SelfPaid(b, msg, meta, rules)
    ensures Intrinsic(msg, rules) == msg.gas && Funded(b, msg, meta)
    ensures Refusal(b, 0, msg.gas, msg, meta, rules, false, true).None?
  {
    SelfPaidGas(msg, rules);
    HalfShares(msg.gas);
    hide Charge, Intrinsic, DataGas, Share, IsMetaTransaction;
    assert SplitOf(meta, Cost(msg.gas, 1)) == Split(msg.gas / 2, msg.gas / 2);
    hide SplitOf;
    assert PreCheckError(msg, meta, rules, 0, false).None?;
  }

  /** An EVM that uses up all the gas and changes nothing. */
  function Burner(b: Balances, n: Nonces, g: uint64): EvmResult { EvmResult(0, b, n, 0, false) }

  lemma OverdraftEnds(b: Balances, nonces: Nonces, msg: Message, meta: Meta, rules: Rules)
    requires SelfPaid(b, msg, meta, rules)
    ensures Frugal(Burner) && Careful(Burner)
    ensures Balance(Transition(b, nonces, msg, meta, rules, Burner, msg.gas).balances, msg.from) < 0
  {
    SelfPaidGas(msg, rules);
    HalfShares(msg.gas);
    hide Intrinsic, DataGas, Share, IsMetaTransaction;
    assert SplitOf(meta, Cost(msg.gas, 1)) == Split(msg.gas / 2, msg.gas / 2) && SplitOf(meta, Cost(0, 1)) == Split(0, 0);
    OverdrawnAtTheEnd(b, nonces, msg, meta, rules, Burner, msg.gas);
    hide SplitOf, Charge, Repay, Credit, EffectiveTip;
    assert Transition(b, nonces, msg, meta, rules, Burner, msg.gas).usedGas == msg.gas;
  }

  /** Such messages exist, whatever the data behind the prefix is, as long as it decodes to
      half of the fee and a signature of the sender itself: each is accepted and ends
      overdrawn by the other half. */
  lemma OverdraftExists(data: seq<byte>)
    requires IsMetaTransaction(data) && |data| > |META_PREFIX| && DataGas(data, false, true, true) <= MAX_UINT64
    ensures exists b, nonces, msg: Message, meta, rules, evm :: msg.data == data && BecomesOverdrawn(b, nonces, msg, meta, rules, evm)
  {
    var gas := DataGas(data, false, true, true);
    var msg, meta := Message(1, Some(2), 0, gas, 1, 1, 1, 0, data, None, false), Payer(1, 5000);
    var rules := Rules(true, true, true, true, false, 0, 3, 3);
    var b: Balances, nonces: Nonces := map[1 := gas / 2], map[];
    assert SelfPaid(b, msg, meta, rules);
    OverdraftAccepted(b, msg, meta, rules);
    OverdraftEnds(b, nonces, msg, meta, rules);
    hide Refusal, Transition, Intrinsic, DataGas, IsMetaTransaction;
    assert BecomesOverdrawn(b, nonces, msg, meta, rules, Burner);
  }

  class StateTransition {
    const gp: GasPool
    const msg: Message
    const rules: Rules
    const state: StateDB
    const meta: Meta
    var gas: uint64
    var initialGas: uint64

    constructor (gp: GasPool, msg: Message, meta: Meta, rules: Rules, state: StateDB)
      ensures this.gp == gp && this.msg == msg && this.meta == meta && this.rules == rules && this.state == state
      ensures gas == initialGas == 0
    {
      this.gp, this.msg, this.meta, this.rules, this.state := gp, msg, meta, rules, state;
      gas, initialGas := 0, 0;
    }

    ghost predicate Valid() reads this {
      Decodes(msg.data, meta) && gas <= initialGas
    }

    /** Gas and money still to come back can be added to the pool without overflow. */
    ghost predicate PoolFits(before: nat) reads this, gp {
      gp.gas == before - initialGas && before <= MAX_UINT64
    }

    method BuyGas() returns (err: Option<Error>)
      requires Valid() && gas == 0 && !meta.Payer?
      modifies this, gp, state`balances
      ensures err == (if !Funded(old(state.balances), msg, meta) then Some(InsufficientFunds)
                      else if old(gp.gas) < msg.gas then Some(GasLimitReached) else None)
      ensures err.Some? ==> gp.gas == old(gp.gas) && state.balances == old(state.balances)
      ensures err.None? ==>
        && gas == initialGas == msg.gas && gp.gas == old(gp.gas) - msg.gas
        && state.balances == Charge(old(state.balances), meta, msg.from, SplitOf(meta, Cost(msg.gas, msg.gasPrice)))
    {
      var mgval := Cost(msg.gas, msg.gasPrice);
      var balanceCheck := msg.gas * msg.gasFeeCap + msg.value;
      if Balance(state.balances, msg.from) < balanceCheck {
        return Some(InsufficientFunds);
      }
      var ok := gp.SubGas(msg.gas);
      if !ok {
        return Some(GasLimitReached);
      }
      gas := gas + msg.gas;
      initialGas := msg.gas;
      state.SubBalance(msg.from, mgval);
      return None;
    }

    method BuyGasMeta() returns (err: Option<Error>)
      requires Valid() && gas == 0 && meta.Payer?
      modifies this, gp, state`balances
      ensures err == (if !Funded(old(state.balances), msg, meta) then Some(InsufficientFunds)
                      else if old(gp.gas) < msg.gas then Some(GasLimitReached) else None)
      ensures err.Some? ==> gp.gas == old(gp.gas) && state.balances == old(state.balances)
      ensures err.None? ==>
        && gas == initialGas == msg.gas && gp.gas == old(gp.gas) - msg.gas
        && state.balances == Charge(old(state.balances), meta, msg.from, SplitOf(meta, Cost(msg.gas, msg.gasPrice)))
      ensures err.None? && meta.feeAddress != msg.from ==>
        var all := msg.gas * msg.gasPrice;
        && Balance(state.balances, meta.feeAddress) == old(Balance(state.balances, meta.feeAddress)) - all * meta.feePercent / 10000
        && Balance(state.balances, msg.from) == old(Balance(state.balances, msg.from)) - all * (10000 - meta.feePercent) / 10000
    {
      hide Share;
      var mgval := Cost(msg.gas, msg.gasPrice);
      var mgFeeAddrVal := Share(mgval, meta.feePercent);
      var mgSelfVal := Share(mgval, FEE_BASE - meta.feePercent);
      if Balance(state.balances, meta.feeAddress) < mgFeeAddrVal || Balance(state.balances, msg.from) < mgSelfVal {
        return Some(InsufficientFunds);
      }
      var ok := gp.SubGas(msg.gas);
      if !ok {
        return Some(GasLimitReached);
      }
      gas := gas + msg.gas;
      initialGas := msg.gas;
      state.SubBalance(meta.feeAddress, mgFeeAddrVal);
      state.SubBalance(msg.from, mgSelfVal);
      SharesAre(mgval, meta.feePercent);
      return None;
    }

    /** preCheck, ending in the purchase of the gas. */
    method PreCheck(hasCode: bool) returns (err: Option<Error>)
      requires Valid() && gas == 0
      modifies this, gp, state`balances
      ensures var refused := PreCheckError(msg, meta, rules, state.Nonce(msg.from), hasCode);
        err == (if refused.Some? then refused
                else if !Funded(old(state.balances), msg, meta) then Some(InsufficientFunds)
                else if old(gp.gas) < msg.gas then Some(GasLimitReached) else None)
      ensures err.Some? ==> gp.gas == old(gp.gas) && state.balances == old(state.balances)
      ensures err.None? ==>
        && gas == initialGas == msg.gas && gp.gas == old(gp.gas) - msg.gas
        && state.balances == Charge(old(state.balances), meta, msg.from, SplitOf(meta, Cost(msg.gas, msg.gasPrice)))
    {
      hide SplitOf, Charge, Funded;
      if !msg.isFake {
        var stNonce := state.Nonce(msg.from);
        if stNonce < msg.nonce {
          return Some(NonceTooHigh);
        } else if stNonce > msg.nonce {
          return Some(NonceTooLow);
        } else if (stNonce + 1) % (MAX_UINT64 + 1) < stNonce {
          return Some(NonceMax);
        }
        if hasCode {
          return Some(SenderNoEOA);
        }
      }
      if rules.london {
        if !rules.noBaseFee || msg.gasFeeCap > 0 || msg.gasTipCap > 0 {
          if msg.gasFeeCap > MAX_UINT256 {
            return Some(FeeCapVeryHigh);
          }
          if msg.gasTipCap > MAX_UINT256 {
            return Some(TipVeryHigh);
          }
          if msg.gasFeeCap < msg.gasTipCap {
            return Some(TipAboveFeeCap);
          }
          if msg.gasFeeCap < rules.baseFee {
            return Some(FeeCapTooLow);
          }
        }
      }
      if meta.BadMeta? {
        return Some(BadMetaData);
      }
      if meta.Payer? {
        err := BuyGasMeta();
      } else {
        err := BuyGas();
      }
    }

    /** refundGas: the capped refund counter joins the unused gas, which is paid back at the
        original price and returned to the block's pool. */
    method RefundGas(refundQuotient: nat, ghost before: nat)
      requires Valid() && refundQuotient > 1 && PoolFits(before)
      modifies this`gas, gp, state`balances
      ensures Valid()
      ensures var used := initialGas - old(gas);
        && gas == old(gas) + Refund(used, refundQuotient, state.refund)
        && state.balances == Repay(old(state.balances), meta, msg.from, SplitOf(meta, Cost(gas, msg.gasPrice)))
        && gp.gas == before - (initialGas - gas)
      ensures meta.Payer? && meta.feeAddress != msg.from ==>
        var back := gas * msg.gasPrice;
        && Balance(state.balances, meta.feeAddress) == old(Balance(state.balances, meta.feeAddress)) + back * meta.feePercent / 10000
        && Balance(state.balances, msg.from) == old(Balance(state.balances, msg.from)) + back * (10000 - meta.feePercent) / 10000
    {
      hide Share, Refund, SplitOf, Credit, Repay;
      var refund := CappedRefund(refundQuotient);
      gas := gas + refund;
      if meta.Payer? && meta.feeAddress != msg.from { RepaidIs(state.balances, meta, msg.from, Cost(gas, msg.gasPrice)); }
      PayBack(Cost(gas, msg.gasPrice));
      gp.AddGas(gas);
    }

    method CappedRefund(refundQuotient: nat) returns (refund: nat)
      requires Valid() && refundQuotient > 1
      ensures refund == Refund(initialGas - gas, refundQuotient, state.refund)
    {
      refund := GasUsed() / refundQuotient;
      if refund > state.refund {
        refund := state.refund;
      }
    }

    /** Pays an amount back, split as it was charged. */
    method PayBack(remaining: nat)
      requires Valid()
      modifies state`balances
      ensures state.balances == Repay(old(state.balances), meta, msg.from, SplitOf(meta, remaining))
    {
      hide Share;
      if meta.Payer? {
        var mgFeeAddrVal := Share(remaining, meta.feePercent);
        var mgSelfVal := Share(remaining, FEE_BASE - meta.feePercent);
        state.AddBalance(meta.feeAddress, mgFeeAddrVal);
        state.AddBalance(msg.from, mgSelfVal);
      } else {
        state.AddBalance(msg.from, remaining);
      }
    }

    function GasUsed(): nat
      requires gas <= initialGas
      reads this
    {
      initialGas - gas
    }

    /** The run on the EVM: a call also consumes a nonce. */
    method Execute(evm: Evm) returns (failed: bool)
      requires Valid() && Frugal(evm)
      modifies this`gas, state
      ensures Valid()
      ensures var out := evm(old(state.balances), Raised(old(state.nonces), msg), old(gas));
        && gas == out.left && state.balances == out.balances && state.nonces == out.nonces && state.refund == out.refund && failed == out.failed
        && gas <= old(gas)
    {
      if msg.to.Some? {
        state.nonces := state.nonces[msg.from := (state.Nonce(msg.from) + 1) % (MAX_UINT64 + 1)];
      }
      var out := evm(state.balances, state.nonces, gas);
      gas, state.balances, state.nonces, state.refund := out.left, out.balances, out.nonces, out.refund;
      return out.failed;
    }

    /** TransitionDb. */
    method TransitionDb(hasCode: bool, canCreate: bool, evm: Evm) returns (r: Result<ExecutionResult>)
      requires Valid() && gas == 0 && Frugal(evm) && |msg.data| <= MAX_UINT64
      modifies this, gp, state
      ensures var refusal := Refusal(old(state.balances), old(state.Nonce(msg.from)), old(gp.gas), msg, meta, rules, hasCode, canCreate);
        if refusal.Some? then r == Err(refusal.value)
        else
          && Intrinsic(msg, rules) <= msg.gas
          && var o := Transition(old(state.balances), old(state.nonces), msg, meta, rules, evm, Intrinsic(msg, rules));
          && r == Ok(ExecutionResult(o.usedGas, o.failed))
          && state.balances == o.balances && state.nonces == o.nonces
          && gp.gas == old(gp.gas) - o.usedGas
      ensures r.Err? ==> state.nonces == old(state.nonces)
      ensures r.Err? ==>
        if Buys(old(state.balances), old(state.Nonce(msg.from)), old(gp.gas), msg, meta, rules, hasCode)
        then gp.gas == old(gp.gas) - msg.gas && state.balances == Charge(old(state.balances), meta, msg.from, SplitOf(meta, Cost(msg.gas, msg.gasPrice)))
        else gp.gas == old(gp.gas) && state.balances == old(state.balances)
    {
      hide SplitOf, Charge, Funded, PreCheckError, LateRefusal, Intrinsic, Frugal, Settle;
      ghost var before := gp.gas;
      var err := PreCheck(hasCode);
      if err.Some? {
        return Err(err.value);
      }
      err := LateCheck(canCreate);
      if err.Some? {
        return Err(err.value);
      }
      var failed := Execute(evm);
      SettleUp(EvmResult(gas, state.balances, state.nonces, state.refund, failed), before);
      return Ok(ExecutionResult(GasUsed(), failed));
    }

    /** The intrinsic gas, and what may still stop the message after its gas was bought. */
    method LateCheck(canCreate: bool) returns (err: Option<Error>)
      requires Valid() && gas == msg.gas && |msg.data| <= MAX_UINT64
      modifies this`gas
      ensures Valid() && err == LateRefusal(state.balances, msg, rules, canCreate)
      ensures err.None? ==> Intrinsic(msg, rules) <= msg.gas && gas == msg.gas - Intrinsic(msg, rules)
    {
      hide DataGas, AccessGas;
      var cost := IntrinsicGas(msg.data, msg.accessList, msg.to.None?, rules.homestead, rules.istanbul);
      if cost.Err? {
        return Some(cost.error);
      }
      if gas < cost.value {
        return Some(IntrinsicGasTooLow);
      }
      gas := gas - cost.value;
      if msg.value > 0 && Balance(state.balances, msg.from) < msg.value {
        return Some(InsufficientFundsForTransfer);
      }
      if msg.to.None? && !canCreate {
        return Some(UnauthorizedDeveloper);
      }
      return None;
    }

    /** Refund and tip. */
    method SettleUp(ghost ran: EvmResult, ghost before: nat)
      requires Valid() && PoolFits(before) && initialGas == msg.gas
      requires ran == EvmResult(gas, state.balances, state.nonces, state.refund, ran.failed)
      modifies this`gas, gp, state`balances
      ensures Valid()
      ensures var o := Settle(ran, msg, meta, rules);
        GasUsed() == o.usedGas && state.balances == o.balances && gp.gas == before - o.usedGas && state.nonces == o.nonces && o.failed == ran.failed
    {
      hide SplitOf, Repay, Credit, EffectiveTip, Refund;
      RefundGas(if rules.london then 5 else 2, before);
      var tip := GasUsed() * EffectiveTip(msg, rules);
      state.AddBalance(Recipient(rules), tip);
    }
  }
}
