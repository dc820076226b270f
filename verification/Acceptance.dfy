/** What the pool keeps pending, the state transition accepts. */
module Acceptance {
  import opened Transactions
  import opened TxLists
  import opened PoolSpec
  import opened PoolSteady
  import opened Fates
  import opened StateTransitions
  import opened Settlement

  /** The message a transaction becomes; what the pool does not look at is open. */
  function MessageOf(t: Tx, to: Option<Address>, price: nat, data: seq<byte>, accessList: Option<AccessList>): Message {
    Message(t.from, to, t.nonce, t.gas, price, t.feeCap, t.tipCap, t.value, data, accessList, false)
  }

  /** The pool's check, of lists and of chain heads, is the one made when the gas is bought. */
  lemma AffordsMeans(c: Chain, t: Tx, to: Option<Address>, price: nat, data: seq<byte>, accessList: Option<AccessList>)
    ensures Payable(t, c.Balance(t.from), c.maxGas) <==>
      t.gas <= c.maxGas && Funded(c.balances, MessageOf(t, to, price, data, accessList), NoMeta)
    ensures Payable(t, c.Balance(t.from), c.maxGas) <==> Affords(c, t)
  {
    PayableMeans(c, t);
  }

  /** What the pool leaves to validateTx and to the block: the fees suit the rules, the gas
      covers the data, and the block still has that much gas. */
  ghost predicate Fits(t: Tx, msg: Message, pool: uint64, rules: Rules, canCreate: bool) {
    var dataGas := DataGas(msg.data, msg.to.None?, rules.homestead, rules.istanbul);
    && FeesFit(msg, rules) && msg.gasPrice <= t.feeCap && t.gas <= pool && (msg.to.Some? || canCreate)
    && dataGas <= MAX_UINT64 && (dataGas + AccessGas(msg.accessList)) % 0x1_0000_0000_0000_0000 <= t.gas
  }

  /** The pool hands out transactions that can be applied: where everything pending is
      affordable, as after a reset, the first pending transaction of a steady account is accepted
      at the head by the state transition. */
  lemma FrontIsAccepted(p: Pool, a: Address, msg: Message, pool: uint64, rules: Rules, canCreate: bool)
    requires Inv(p) && Steady(p, a) && AllAfford(p, a) && Of(p.pending, a) != map[]
    ensures p.chain.Nonce(a) in Of(p.pending, a)
    ensures var t := Of(p.pending, a)[p.chain.Nonce(a)];
      msg == MessageOf(t, msg.to, msg.gasPrice, msg.data, msg.accessList) && Fits(t, msg, pool, rules, canCreate) ==>
        Refusal(p.chain.balances, p.chain.Nonce(a), pool, msg, NoMeta, rules, false, canCreate).None?
  {
    hide Refusal, Affords, Fits, MessageOf;
    AccountInv(p, a);
    var s := p.chain.Nonce(a);
    var n :| n in Of(p.pending, a);
    assert s in Of(p.pending, a);
    var t := Of(p.pending, a)[s];
    assert t.from == a && t.nonce == s < MAX_UINT64;
    hide Inv, Steady;
    if msg == MessageOf(t, msg.to, msg.gasPrice, msg.data, msg.accessList) && Fits(t, msg, pool, rules, canCreate) {
      Accepts(p.chain, t, msg, pool, rules, canCreate);
    }
  }

  lemma Accepts(chain: Chain, t: Tx, msg: Message, pool: uint64, rules: Rules, canCreate: bool)
    requires msg == MessageOf(t, msg.to, msg.gasPrice, msg.data, msg.accessList) && Fits(t, msg, pool, rules, canCreate)
    requires Affords(chain, t) && t.nonce == chain.Nonce(t.from) < MAX_UINT64
    ensures Refusal(chain.balances, t.nonce, pool, msg, NoMeta, rules, false, canCreate).None?
  {
    hide Refusal, DataGas, FeesFit;
    AcceptedMeans(chain.balances, t.nonce, pool, msg, NoMeta, rules, false, canCreate);
    MulMono(msg.gasPrice, t.feeCap, t.gas);
  }
}
