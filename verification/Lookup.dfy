/** txLookup: every pooled transaction, split into local and remote ones. */
module Lookup {
  import opened Transactions

  ghost function SlotSum(s: set<Tx>): nat {
    if s == {} then 0
    else var t :| t in s; t.NumSlots() + SlotSum(s - {t})
  }

  /** A slot is 32 KiB, and a transaction takes as few as hold it. */
  lemma SlotsMean(t: Tx)
    ensures (t.NumSlots() - 1) * 32768 < t.size <= t.NumSlots() * 32768
  {}

  lemma {:induction false} SlotSumPick(s: set<Tx>, x: Tx)
    requires x in s
    ensures SlotSum(s) == x.NumSlots() + SlotSum(s - {x})
  {
    var t :| t in s && SlotSum(s) == t.NumSlots() + SlotSum(s - {t});
    if t != x {
      SlotSumPick(s - {t}, x);
      SlotSumPick(s - {x}, t);
      assert s - {t} - {x} == s - {x} - {t};
    }
  }

  lemma {:induction false} SlotSumMono(a: set<Tx>, b: set<Tx>)
    requires a <= b
    ensures SlotSum(a) <= SlotSum(b)
  {
    if a != {} {
      var t :| t in a;
      SlotSumPick(a, t);
      SlotSumPick(b, t);
      SlotSumMono(a - {t}, b - {t});
    }
  }

  lemma {:induction false} SlotSumMinus(b: set<Tx>, a: set<Tx>)
    requires a <= b
    ensures SlotSum(b - a) == SlotSum(b) - SlotSum(a)
  {
    if a == {} {
      assert b - a == b;
    } else {
      var t :| t in a;
      SlotSumPick(a, t);
      SlotSumPick(b, t);
      SlotSumMinus(b - {t}, a - {t});
      assert b - a == (b - {t}) - (a - {t});
    }
  }

  class TxLookup {
    var slots: int
    var locals: set<Tx>
    var remotes: set<Tx>

    /** No transaction is in both halves, and `slots` is the sum of their sizes. */
    ghost predicate Valid() reads this {
      locals !! remotes && slots == SlotSum(locals + remotes)
    }

    constructor ()
      ensures Valid() && locals == remotes == {}
    {
      slots, locals, remotes := 0, {}, {};
    }

    function Get(hash: Tx): Option<Tx> reads this {
      if hash in locals || hash in remotes then Some(hash) else None
    }

    function GetRemote(hash: Tx): Option<Tx> reads this {
      if hash in remotes then Some(hash) else None
    }

    method Add(tx: Tx, local: bool)
      requires Valid() && tx !in locals + remotes
      modifies this
      ensures Valid()
      ensures locals == old(locals) + (if local then {tx} else {})
      ensures remotes == old(remotes) + (if local then {} else {tx})
    {
      SlotSumPick(locals + remotes + {tx}, tx);
      assert locals + remotes + {tx} - {tx} == locals + remotes;
      slots := slots + tx.NumSlots();
      if local {
        locals := locals + {tx};
      } else {
        remotes := remotes + {tx};
      }
      assert locals + remotes == old(locals) + old(remotes) + {tx};
    }

    method Remove(hash: Tx)
      requires Valid()
      modifies this
      ensures Valid()
      ensures locals == old(locals) - {hash} && remotes == old(remotes) - {hash}
    {
      if hash !in locals && hash !in remotes {
        assert locals == locals - {hash} && remotes == remotes - {hash};
        return;
      }
      SlotSumPick(locals + remotes, hash);
      slots := slots - hash.NumSlots();
      locals, remotes := locals - {hash}, remotes - {hash};
      assert locals + remotes == old(locals) + old(remotes) - {hash};
    }

    /** Moves every remote transaction whose sender became local. */
    method RemoteToLocals(accounts: set<Address>) returns (migrated: nat)
      requires Valid()
      modifies this
      ensures Valid() && locals + remotes == old(locals) + old(remotes)
      ensures remotes == set t | t in old(remotes) && t.from !in accounts
      ensures migrated == |old(remotes) - remotes|
    {
      migrated := 0;
      var todo := remotes;
      assert old(remotes) - remotes == {};
      while todo != {}
        invariant todo <= remotes <= old(remotes)
        invariant forall t :: t in old(remotes) && t !in todo ==> (t in remotes <==> t.from !in accounts)
        invariant locals !! remotes && locals + remotes == old(locals) + old(remotes) && slots == old(slots)
        invariant migrated == |old(remotes) - remotes|
        decreases todo
      {
        var t :| t in todo;
        if t.from in accounts {
          assert old(remotes) - (remotes - {t}) == old(remotes) - remotes + {t};
          locals, remotes := locals + {t}, remotes - {t};
          migrated := migrated + 1;
        }
        todo := todo - {t};
      }
    }

    method RemotesBelowTip(threshold: nat) returns (found: seq<Tx>)
      ensures forall t :: t in found <==> t in remotes && t.tipCap < threshold
      ensures forall i, j :: 0 <= i < j < |found| ==> found[i] != found[j]
    {
      found := [];
      var todo := remotes;
      while todo != {}
        invariant todo <= remotes
        invariant forall t :: t in found <==> t in remotes && t !in todo && t.tipCap < threshold
        invariant forall i, j :: 0 <= i < j < |found| ==> found[i] != found[j]
        decreases todo
      {
        var t :| t in todo;
        if t.tipCap < threshold {
          found := found + [t];
        }
        todo := todo - {t};
      }
    }
  }
}
