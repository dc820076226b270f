/** GasPool: the gas still available in a block. */
module GasPools {
  import opened Transactions

  class GasPool {
    var gas: uint64

    constructor (limit: uint64)
      ensures gas == limit
    {
      gas := limit;
    }

    /** AddGas panics when the pool would exceed uint64; callers must rule that out. */
    method AddGas(amount: uint64)
      requires gas <= MAX_UINT64 - amount
      modifies this
      ensures gas == old(gas) + amount
    {
      gas := gas + amount;
    }

    /** SubGas refuses, and changes nothing, exactly when too little gas is left. */
    method SubGas(amount: uint64) returns (ok: bool)
      modifies this
      ensures ok <==> old(gas) >= amount
      ensures gas == if ok then old(gas) - amount else old(gas)
    {
      if gas < amount {
        return false;
      }
      gas := gas - amount;
      return true;
    }
  }
}
