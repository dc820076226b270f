/** txNoncer: the virtual nonces of the pool, over the chain's. */
module Noncer {
  import opened Transactions
  import opened PoolSpec

  class TxNoncer {
    const fallback: Chain
    var nonces: map<Address, uint64>

    constructor (chain: Chain)
      ensures fallback == chain && nonces == map[]
    {
      fallback, nonces := chain, map[];
    }

    ghost function Nonce(addr: Address): uint64 reads this {
      if addr in nonces then nonces[addr] else fallback.Nonce(addr)
    }

    /** Reading an account also records its fallback value, which no later read can tell. */
    method Get(addr: Address) returns (n: uint64)
      modifies this
      ensures n == old(Nonce(addr)) && nonces == old(nonces)[addr := n]
      ensures forall a :: Nonce(a) == old(Nonce(a))
    {
      if addr !in nonces {
        nonces := nonces[addr := fallback.Nonce(addr)];
      }
      n := nonces[addr];
      assert nonces == old(nonces)[addr := n];
    }

    method Set(addr: Address, nonce: uint64)
      modifies this
      ensures nonces == old(nonces)[addr := nonce]
      ensures forall a :: Nonce(a) == if a == addr then nonce else old(Nonce(a))
    {
      nonces := nonces[addr := nonce];
    }

    method SetIfLower(addr: Address, nonce: uint64)
      modifies this
      ensures nonces == old(nonces)[addr := if old(Nonce(addr)) <= nonce then old(Nonce(addr)) else nonce]
      ensures forall a :: Nonce(a) == if a == addr && nonce < old(Nonce(addr)) then nonce else old(Nonce(a))
    {
      if addr !in nonces {
        nonces := nonces[addr := fallback.Nonce(addr)];
      }
      if nonces[addr] <= nonce {
        assert nonces == old(nonces)[addr := nonces[addr]];
        return;
      }
      nonces := nonces[addr := nonce];
    }

    method SetAll(values: map<Address, uint64>)
      modifies this
      ensures nonces == values
      ensures forall a :: Nonce(a) == if a in values then values[a] else fallback.Nonce(a)
    {
      nonces := values;
    }
  }
}
