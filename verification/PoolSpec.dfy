/** The transaction pool as a value: what each pool operation computes, and the relations
    between the pool's structures that every operation keeps. */
module PoolSpec {
  import opened Transactions
  import opened TxLists

  type Lists = map<Address, Items>

  /** The chain head's account state and gas limit. */
  datatype Chain = Chain(nonces: map<Address, uint64>, balances: map<Address, nat>, maxGas: nat) {
    function Nonce(a: Address): uint64 { if a in nonces then nonces[a] else 0 }

    function Balance(a: Address): nat { if a in balances then balances[a] else 0 }
  }

  /** Pool limits, after sanitize() has raised every one of them to at least 1. */
  datatype Config = Config(priceBump: pos, accountSlots: pos, globalSlots: pos, accountQueue: pos, globalQueue: pos)

  datatype Pool = Pool(pending: Lists, queue: Lists, known: set<Tx>, nonces: map<Address, uint64>, chain: Chain, locals: set<Address>)

  function Of(l: Lists, a: Address): Items { if a in l then l[a] else map[] }

  /** l with a's list set to m; an emptied list is not kept. */
  function With(l: Lists, a: Address, m: Items): Lists {
    if m == map[] then map b | b in l && b != a :: l[b] else l[a := m]
  }

  function TxsOf(m: Items): set<Tx> { set n | n in m :: m[n] }

  function Next(n: uint64): uint64 { if n == MAX_UINT64 then 0 else n + 1 }

  /** The virtual nonce: the tracked one, else the chain's. */
  function VNonce(p: Pool, a: Address): uint64 {
    if a in p.nonces then p.nonces[a] else p.chain.Nonce(a)
  }

  function SetIfLower(p: Pool, a: Address, n: uint64): map<Address, uint64> {
    p.nonces[a := if VNonce(p, a) <= n then VNonce(p, a) else n]
  }

  // ----- invariant -----

  ghost predicate Belongs(m: Items, a: Address) {
    forall n :: n in m ==> m[n].from == a && m[n].nonce == n
  }

  ghost predicate Holds(m: Items, t: Tx) { t.nonce in m && m[t.nonce] == t }

  ghost predicate WellPlaced(l: Lists) {
    forall a :: a in l ==> l[a] != map[] && Belongs(l[a], a)
  }

  ghost predicate Apart(p: Pool, a: Address) { Of(p.pending, a).Keys !! Of(p.queue, a).Keys }

  ghost predicate Listed(p: Pool, t: Tx) { Holds(Of(p.pending, t.from), t) || Holds(Of(p.queue, t.from), t) }

  /** No list is empty or misfiled, an account's two lists share no nonce, and the lookup
      holds exactly the transactions of the lists. */
  ghost predicate Inv(p: Pool) {
    && WellPlaced(p.pending) && WellPlaced(p.queue)
    && (forall a :: Apart(p, a))
    && (forall t :: t in p.known <==> Listed(p, t))
  }

  /** Replacing account a's two lists. */
  function Update(p: Pool, a: Address, pend: Items, queued: Items, known: set<Tx>): Pool {
    p.(pending := With(p.pending, a, pend), queue := With(p.queue, a, queued), known := known)
  }

  lemma HoldsTxs(m: Items, a: Address)
    requires Belongs(m, a)
    ensures forall t :: t in TxsOf(m) <==> Holds(m, t)
  {
    forall t | Holds(m, t) ensures t in TxsOf(m) { assert m[t.nonce] == t; }
  }

  lemma OfWith(l: Lists, a: Address, m: Items, b: Address)
    ensures Of(With(l, a, m), b) == if b == a then m else Of(l, b)
  {}

  lemma WithKeys(l: Lists, a: Address, m: Items)
    ensures With(l, a, m).Keys == if m == map[] then l.Keys - {a} else l.Keys + {a}
  {}

  lemma WithNone(l: Lists, a: Address)
    requires a in l ==> l[a] != map[]
    ensures With(l, a, Of(l, a) + map[]) == l
  {
    assert Of(l, a) + map[] == Of(l, a);
  }

  lemma WithPlaced(l: Lists, a: Address, m: Items)
    requires WellPlaced(l) && Belongs(m, a)
    ensures WellPlaced(With(l, a, m))
  {
    hide Belongs;
  }

  /** What the invariant says of one account. */
  lemma AccountInv(p: Pool, a: Address)
    requires Inv(p)
    ensures Belongs(Of(p.pending, a), a) && Belongs(Of(p.queue, a), a)
    ensures Of(p.pending, a).Keys !! Of(p.queue, a).Keys
    ensures forall t: Tx :: t.from == a ==> (t in p.known <==> Holds(Of(p.pending, a), t) || Holds(Of(p.queue, a), t))
  {
    assert Apart(p, a);
    forall t: Tx | t.from == a ensures t in p.known <==> Holds(Of(p.pending, a), t) || Holds(Of(p.queue, a), t) {
      assert t in p.known <==> Listed(p, t);
    }
  }

  /** The one argument behind every operation: an account's lists may be replaced by any two
      that are filed under it, share no nonce, and hold exactly what the lookup keeps of it. */
  lemma UpdateInv(p: Pool, a: Address, pend: Items, queued: Items, known: set<Tx>)
    requires Inv(p) && Belongs(pend, a) && Belongs(queued, a) && pend.Keys !! queued.Keys
    requires forall t: Tx :: t.from != a ==> (t in known <==> t in p.known)
    requires forall t: Tx :: t.from == a ==> (t in known <==> Holds(pend, t) || Holds(queued, t))
    ensures Inv(Update(p, a, pend, queued, known))
  {
    var r := Update(p, a, pend, queued, known);
    UpdateOf(p, a, pend, queued, known);
    WithPlaced(p.pending, a, pend);
    WithPlaced(p.queue, a, queued);
    hide Of, With, WellPlaced, Belongs, Inv;
    InvOfLists(p, r, a, pend, queued);
  }

  lemma InvOfLists(p: Pool, r: Pool, a: Address, pend: Items, queued: Items)
    requires Inv(p) && WellPlaced(r.pending) && WellPlaced(r.queue) && pend.Keys !! queued.Keys
    requires forall b :: Of(r.pending, b) == (if b == a then pend else Of(p.pending, b)) && Of(r.queue, b) == (if b == a then queued else Of(p.queue, b))
    requires forall t: Tx :: t.from != a ==> (t in r.known <==> t in p.known)
    requires forall t: Tx :: t.from == a ==> (t in r.known <==> Holds(pend, t) || Holds(queued, t))
    ensures Inv(r)
  {
    hide Of, Holds, WellPlaced;
    forall b ensures Apart(r, b) { assert Apart(p, b); }
    forall t ensures t in r.known <==> Listed(r, t) { assert t in p.known <==> Listed(p, t); }
  }

  lemma UpdateOf(p: Pool, a: Address, pend: Items, queued: Items, known: set<Tx>)
    ensures var r := Update(p, a, pend, queued, known);
      forall b :: Of(r.pending, b) == (if b == a then pend else Of(p.pending, b)) && Of(r.queue, b) == (if b == a then queued else Of(p.queue, b))
  {
    hide Of, With;
    forall b ensures Of(With(p.pending, a, pend), b) == (if b == a then pend else Of(p.pending, b))
                  && Of(With(p.queue, a, queued), b) == (if b == a then queued else Of(p.queue, b)) {
      OfWith(p.pending, a, pend, b);
      OfWith(p.queue, a, queued, b);
    }
  }

  // ----- removal -----

  /** removeTx: a pending removal cuts the list there and sends the rest back to the queue. */
  function RemoveTx(p: Pool, tx: Tx): Pool {
    if tx !in p.known then p
    else
      var a, pend, queued := tx.from, Of(p.pending, tx.from), Of(p.queue, tx.from);
      if tx.nonce in pend then
        Update(p, a, Below(pend, tx.nonce), queued + From(pend, tx.nonce + 1), p.known - {tx}).(
          nonces := SetIfLower(p, a, tx.nonce))
      else
        Update(p, a, pend, Delete(queued, tx.nonce), p.known - {tx})
  }

  function RemoveAll(p: Pool, txs: seq<Tx>): Pool
    decreases |txs|
  {
    if txs == [] then p else RemoveAll(RemoveTx(p, txs[0]), txs[1..])
  }

  /** removeTx looks its entry up by nonce; that the entry is the very transaction is what
      the invariant supplies. */
  lemma RemoveFindsIt(p: Pool, tx: Tx)
    requires Inv(p) && tx in p.known
    ensures tx.nonce in Of(p.pending, tx.from) ==> Of(p.pending, tx.from)[tx.nonce] == tx && tx.nonce !in Of(p.queue, tx.from)
    ensures tx.nonce !in Of(p.pending, tx.from) ==> Holds(Of(p.queue, tx.from), tx)
  {
    assert Listed(p, tx) && Apart(p, tx.from);
  }

  lemma RemoveTxInv(p: Pool, tx: Tx)
    requires Inv(p)
    ensures Inv(RemoveTx(p, tx)) && RemoveTx(p, tx).known == p.known - {tx}
  {
    hide Inv, Of, With, Below, From, Delete, Belongs, Holds, SetIfLower;
    if tx !in p.known {
      return;
    }
    var a, pend, queued := tx.from, Of(p.pending, tx.from), Of(p.queue, tx.from);
    AccountInv(p, a);
    if tx.nonce in pend {
      var pend', queued' := Below(pend, tx.nonce), queued + From(pend, tx.nonce + 1);
      CutKeeps(pend, queued, p.known, tx);
      UpdateInv(p, a, pend', queued', p.known - {tx});
      NoncesFree(Update(p, a, pend', queued', p.known - {tx}), SetIfLower(p, a, tx.nonce));
    } else {
      DeleteKeeps(pend, queued, p.known, tx);
      UpdateInv(p, a, pend, Delete(queued, tx.nonce), p.known - {tx});
    }
  }

  lemma DeleteKeeps(pend: Items, queued: Items, known: set<Tx>, tx: Tx)
    requires Belongs(pend, tx.from) && Belongs(queued, tx.from) && pend.Keys !! queued.Keys && tx in known
    requires forall t: Tx :: t.from == tx.from ==> (t in known <==> Holds(pend, t) || Holds(queued, t))
    requires tx.nonce !in pend
    ensures var q := Delete(queued, tx.nonce);
      && Belongs(q, tx.from) && pend.Keys !! q.Keys
      && forall t: Tx :: t.from == tx.from ==> (t in known - {tx} <==> Holds(pend, t) || Holds(q, t))
  {
    assert Holds(queued, tx);
  }

  lemma CutKeeps(pend: Items, queued: Items, known: set<Tx>, tx: Tx)
    requires Belongs(pend, tx.from) && Belongs(queued, tx.from) && pend.Keys !! queued.Keys && tx in known
    requires forall t: Tx :: t.from == tx.from ==> (t in known <==> Holds(pend, t) || Holds(queued, t))
    requires tx.nonce in pend
    ensures var q := queued + From(pend, tx.nonce + 1);
      && Belongs(Below(pend, tx.nonce), tx.from) && Belongs(q, tx.from) && Below(pend, tx.nonce).Keys !! q.Keys
      && forall t: Tx :: t.from == tx.from ==> (t in known - {tx} <==> Holds(Below(pend, tx.nonce), t) || Holds(q, t))
  {
    assert Holds(pend, tx);
  }

  /** The virtual nonces take no part in the invariant. */
  lemma NoncesFree(p: Pool, nonces: map<Address, uint64>)
    requires Inv(p)
    ensures Inv(p.(nonces := nonces))
  {
    var r := p.(nonces := nonces);
    hide Of, Holds, WellPlaced;
    forall b ensures Apart(r, b) { assert Apart(p, b); }
    forall t ensures t in r.known <==> Listed(r, t) { assert t in p.known <==> Listed(p, t); }
  }

  lemma {:induction false} RemoveAllInv(p: Pool, txs: seq<Tx>)
    requires Inv(p)
    ensures Inv(RemoveAll(p, txs)) && RemoveAll(p, txs).known == p.known - Members(txs)
    ensures RemoveAll(p, txs).chain == p.chain && RemoveAll(p, txs).locals == p.locals
    decreases |txs|
  {
    if txs != [] {
      RemoveTxInv(p, txs[0]);
      RemoveAllInv(RemoveTx(p, txs[0]), txs[1..]);
      MembersFirst(txs);
    }
  }

  // ----- insertion -----

  /** Putting tx on the pending list in place of prev (add, replacement branch). */
  function ReplacePending(p: Pool, tx: Tx): Pool
    requires tx.nonce in Of(p.pending, tx.from)
  {
    var pend := Of(p.pending, tx.from);
    p.(pending := p.pending[tx.from := pend[tx.nonce := tx]], known := p.known - {pend[tx.nonce]} + {tx})
  }

  /** Putting tx on the queue, over whatever had its nonce there (enqueueTx). */
  function Enqueue(p: Pool, tx: Tx): Pool {
    var queued := Of(p.queue, tx.from);
    p.(queue := p.queue[tx.from := queued[tx.nonce := tx]],
       known := p.known - (if tx.nonce in queued then {queued[tx.nonce]} else {}) + {tx})
  }

  /** add, once room has been made: replace a pending or queued transaction of the same nonce
      if the price rule allows, else queue the new one. The flag tells whether it went in. */
  function Insert(p: Pool, tx: Tx, priceBump: nat): (Pool, bool) {
    var pend, queued := Of(p.pending, tx.from), Of(p.queue, tx.from);
    if tx.nonce in pend then
      if Replaces(pend[tx.nonce], tx, priceBump) then (ReplacePending(p, tx), true) else (p, false)
    else if tx.nonce in queued && !Replaces(queued[tx.nonce], tx, priceBump) then (p, false)
    else (Enqueue(p, tx), true)
  }

  lemma InsertInv(p: Pool, tx: Tx, priceBump: nat)
    requires Inv(p) && tx !in p.known
    ensures Inv(Insert(p, tx, priceBump).0)
  {
    var a, pend, queued := tx.from, Of(p.pending, tx.from), Of(p.queue, tx.from);
    AccountInv(p, a);
    if Insert(p, tx, priceBump).1 {
      if tx.nonce in pend {
        PutKeeps(pend, queued, p.known, tx);
        UpdateInv(p, a, pend[tx.nonce := tx], queued, p.known - {pend[tx.nonce]} + {tx});
        assert With(p.queue, a, queued) == p.queue by { WithSame(p.queue, a); }
      } else {
        PutKeeps(queued, pend, p.known, tx);
        UpdateInv(p, a, pend, queued[tx.nonce := tx], Enqueue(p, tx).known);
        assert With(p.pending, a, pend) == p.pending by { WithSame(p.pending, a); }
      }
      hide Inv, Replaces, Of, Holds, Belongs;
    }
  }

  /** What insertion does, in terms of the transaction of the same sender and nonce, if there is
      one: it goes in just when there is none or the prices are bumped, takes the other's place
      in its list, and otherwise waits in the queue. Nothing else changes. */
  lemma InsertionMeans(p: Pool, tx: Tx, priceBump: nat)
    requires Inv(p) && tx !in p.known
    ensures var (q, ok) := Insert(p, tx, priceBump);
      var pend, queued := Of(p.pending, tx.from), Of(p.queue, tx.from);
      && (ok <==> (tx.nonce in pend ==> Replaces(pend[tx.nonce], tx, priceBump)) && (tx.nonce in queued ==> Replaces(queued[tx.nonce], tx, priceBump)))
      && (!ok ==> q == p)
      && (ok ==> forall t :: t in q.known <==> t == tx || (t in p.known && !(t.from == tx.from && t.nonce == tx.nonce)))
      && (ok ==> Of(q.pending, tx.from) == (if tx.nonce in pend then pend[tx.nonce := tx] else pend))
      && (ok ==> Of(q.queue, tx.from) == (if tx.nonce in pend then queued else queued[tx.nonce := tx]))
      && (forall b :: b != tx.from ==> Of(q.pending, b) == Of(p.pending, b) && Of(q.queue, b) == Of(p.queue, b))
      && q.nonces == p.nonces && q.chain == p.chain && q.locals == p.locals
  {
    AccountInv(p, tx.from);
    InsertedLists(p, tx, priceBump);
    hide Inv, Replaces, Belongs, Of;
    InsertedKnown(p, tx, priceBump);
    hide Insert;
  }

  lemma InsertedLists(p: Pool, tx: Tx, priceBump: nat)
    ensures var (q, ok) := Insert(p, tx, priceBump);
      var pend, queued := Of(p.pending, tx.from), Of(p.queue, tx.from);
      && (ok ==> Of(q.pending, tx.from) == (if tx.nonce in pend then pend[tx.nonce := tx] else pend))
      && (ok ==> Of(q.queue, tx.from) == (if tx.nonce in pend then queued else queued[tx.nonce := tx]))
      && (forall b :: b != tx.from ==> Of(q.pending, b) == Of(p.pending, b) && Of(q.queue, b) == Of(p.queue, b))
  {
    hide Replaces;
  }

  lemma InsertedKnown(p: Pool, tx: Tx, priceBump: nat)
    requires var pend, queued := Of(p.pending, tx.from), Of(p.queue, tx.from);
      && Belongs(pend, tx.from) && Belongs(queued, tx.from) && pend.Keys !! queued.Keys
      && forall t: Tx :: t.from == tx.from ==> (t in p.known <==> Holds(pend, t) || Holds(queued, t))
    ensures var (q, ok) := Insert(p, tx, priceBump);
      ok ==> forall t :: t in q.known <==> t == tx || (t in p.known && !(t.from == tx.from && t.nonce == tx.nonce))
  {
    hide Replaces, Of;
  }

  lemma WithSame(l: Lists, a: Address)
    requires WellPlaced(l)
    ensures With(l, a, Of(l, a)) == l
  {}

  /** Filing tx in m, over whatever had its nonce there. */
  lemma PutKeeps(m: Items, other: Items, known: set<Tx>, tx: Tx)
    requires Belongs(m, tx.from) && Belongs(other, tx.from) && m.Keys !! other.Keys && tx !in known && tx.nonce !in other
    requires forall t: Tx :: t.from == tx.from ==> (t in known <==> Holds(m, t) || Holds(other, t))
    ensures var m' := m[tx.nonce := tx];
      && Belongs(m', tx.from) && m'.Keys !! other.Keys
      && forall t: Tx :: t.from == tx.from ==>
           (t in known - (if tx.nonce in m then {m[tx.nonce]} else {}) + {tx} <==> Holds(m', t) || Holds(other, t))
  {}

  // ----- promotion -----

  /** The queued transactions of a that are still valid at the chain head. */
  function Sound(p: Pool, a: Address): Items {
    Payables(From(Of(p.queue, a), p.chain.Nonce(a)), p.chain.Balance(a), p.chain.maxGas)
  }

  /** End of the run that promotion takes; equal to the start when there is none. */
  function RunOf(m: Items, start: uint64): nat {
    if m == map[] || MinKey(m) > start then 0 else RunEnd(m, MinKey(m))
  }

  function Cut(m: Items, k: nat): Items { map n | n in m && n !in Lowest(m, k) :: m[n] }

  /** promoteExecutables for one account: drop what became invalid, move the run that
      continues the pending list, and cap what stays queued. */
  function PromoteAccount(p: Pool, a: Address, accountQueue: nat): Pool {
    if a !in p.queue then p
    else
      var queued := Of(p.queue, a);
      var young := From(queued, p.chain.Nonce(a));
      var good := Sound(p, a);
      var end := RunOf(good, VNonce(p, a));
      var ready, rest := Below(good, end), From(good, end);
      var caps := if a in p.locals then map[] else Cut(rest, accountQueue);
      var kept := if a in p.locals then rest else Lowest(rest, accountQueue);
      var known := p.known - TxsOf(Below(queued, p.chain.Nonce(a)))
                           - TxsOf(Unpayables(young, p.chain.Balance(a), p.chain.maxGas)) - TxsOf(caps);
      Update(p, a, Of(p.pending, a) + ready, kept, known).(
        nonces := p.nonces[a := if ready == map[] then VNonce(p, a) else Next(MaxKey(ready))])
  }

  lemma PromoteInv(p: Pool, a: Address, accountQueue: nat)
    requires Inv(p)
    ensures Inv(PromoteAccount(p, a, accountQueue))
  {
    hide Inv, Of, With, Belongs, Holds, Below, From, Lowest, Cut, TxsOf, Payables, Unpayables;
    if a !in p.queue {
      return;
    }
    var pend, queued := Of(p.pending, a), Of(p.queue, a);
    var n, balance, maxGas := p.chain.Nonce(a), p.chain.Balance(a), p.chain.maxGas;
    var olds, young := Below(queued, n), From(queued, n);
    var bad, good := Unpayables(young, balance, maxGas), Payables(young, balance, maxGas);
    var end := RunOf(good, VNonce(p, a));
    var ready, rest := Below(good, end), From(good, end);
    var caps := if a in p.locals then map[] else Cut(rest, accountQueue);
    var kept := if a in p.locals then rest else Lowest(rest, accountQueue);
    AccountInv(p, a);
    PromoteParts(queued, n, balance, maxGas, end, accountQueue);
    PromoteKeeps(p.known, a, pend, queued, olds, bad, ready, kept, caps);
    var q := Update(p, a, pend + ready, kept, p.known - TxsOf(olds) - TxsOf(bad) - TxsOf(caps));
    UpdateInv(p, a, pend + ready, kept, p.known - TxsOf(olds) - TxsOf(bad) - TxsOf(caps));
    NoncesFree(q, PromoteAccount(p, a, accountQueue).nonces);
  }

  ghost predicate Part(r: Items, m: Items) { forall n :: n in r ==> n in m && r[n] == m[n] }

  /** m is the disjoint union of five parts. */
  ghost predicate Fifths(m: Items, v: Items, w: Items, x: Items, y: Items, z: Items) {
    && Part(v, m) && Part(w, m) && Part(x, m) && Part(y, m) && Part(z, m)
    && m.Keys == v.Keys + w.Keys + x.Keys + y.Keys + z.Keys
    && v.Keys !! w.Keys !! x.Keys !! y.Keys !! z.Keys
  }

  lemma PromoteParts(queued: Items, n: nat, balance: nat, maxGas: nat, end: nat, accountQueue: nat)
    ensures var young := From(queued, n);
      var bad, good := Unpayables(young, balance, maxGas), Payables(young, balance, maxGas);
      var ready, rest := Below(good, end), From(good, end);
      && Fifths(queued, Below(queued, n), bad, ready, rest, map[])
      && Fifths(queued, Below(queued, n), bad, ready, Lowest(rest, accountQueue), Cut(rest, accountQueue))
  {
    var young := From(queued, n);
    var bad, good := Unpayables(young, balance, maxGas), Payables(young, balance, maxGas);
    ValidParts(queued, n, balance, maxGas, end);
    LowestCut(From(good, end), accountQueue);
    hide Below, From, Lowest, Cut, Payables, Unpayables, Fifths;
    SplitFourth(queued, Below(queued, n), bad, Below(good, end), From(good, end),
      Lowest(From(good, end), accountQueue), Cut(From(good, end), accountQueue));
  }

  lemma ValidParts(queued: Items, n: nat, balance: nat, maxGas: nat, end: nat)
    ensures var young := From(queued, n);
      var bad, good := Unpayables(young, balance, maxGas), Payables(young, balance, maxGas);
      Fifths(queued, Below(queued, n), bad, Below(good, end), From(good, end), map[])
  {
    hide Payable;
  }

  lemma LowestCut(m: Items, k: nat)
    ensures Part(Lowest(m, k), m) && Part(Cut(m, k), m)
    ensures m.Keys == Lowest(m, k).Keys + Cut(m, k).Keys && Lowest(m, k).Keys !! Cut(m, k).Keys
  {}

  lemma SplitFourth(m: Items, v: Items, w: Items, x: Items, y: Items, y1: Items, y2: Items)
    requires Fifths(m, v, w, x, y, map[])
    requires Part(y1, y) && Part(y2, y) && y.Keys == y1.Keys + y2.Keys && y1.Keys !! y2.Keys
    ensures Fifths(m, v, w, x, y1, y2)
  {}

  lemma PromoteKeeps(known: set<Tx>, a: Address, pend: Items, queued: Items, olds: Items, bad: Items, ready: Items, kept: Items, caps: Items)
    requires Belongs(pend, a) && Belongs(queued, a) && pend.Keys !! queued.Keys
    requires forall t: Tx :: t.from == a ==> (t in known <==> Holds(pend, t) || Holds(queued, t))
    requires Fifths(queued, olds, bad, ready, kept, caps)
    ensures Belongs(pend + ready, a) && Belongs(kept, a) && (pend + ready).Keys !! kept.Keys
    ensures var known' := known - TxsOf(olds) - TxsOf(bad) - TxsOf(caps);
      && (forall t: Tx :: t.from == a ==> (t in known' <==> Holds(pend + ready, t) || Holds(kept, t)))
      && (forall t: Tx :: t.from != a ==> (t in known' <==> t in known))
  {
    HoldsTxs(olds, a);
    HoldsTxs(bad, a);
    HoldsTxs(caps, a);
    FifthsHold(queued, olds, bad, ready, kept, caps);
    HoldsJoin(pend, ready);
    PromoteFiled(a, pend, queued, olds, bad, ready, kept, caps);
    assert forall t :: !(Holds(pend, t) && Holds(queued, t));
    hide Holds, TxsOf, Fifths, Belongs;
    assert forall t :: t in TxsOf(olds) ==> Holds(queued, t);
  }

  lemma PromoteFiled(a: Address, pend: Items, queued: Items, olds: Items, bad: Items, ready: Items, kept: Items, caps: Items)
    requires Belongs(pend, a) && Belongs(queued, a) && pend.Keys !! queued.Keys
    requires Fifths(queued, olds, bad, ready, kept, caps)
    ensures Belongs(pend + ready, a) && Belongs(kept, a) && (pend + ready).Keys !! kept.Keys
    ensures pend.Keys !! ready.Keys
    ensures forall t :: t in TxsOf(olds) || t in TxsOf(bad) || t in TxsOf(caps) ==> t.from == a
  {}

  /** Each transaction of m is in exactly one of the parts. */
  lemma FifthsHold(m: Items, v: Items, w: Items, x: Items, y: Items, z: Items)
    requires Fifths(m, v, w, x, y, z)
    ensures forall t :: Holds(m, t) <==> Holds(v, t) || Holds(w, t) || Holds(x, t) || Holds(y, t) || Holds(z, t)
    ensures forall t :: Holds(x, t) || Holds(y, t) ==> !Holds(v, t) && !Holds(w, t) && !Holds(z, t)
  {}

  lemma HoldsJoin(m: Items, r: Items)
    ensures m.Keys !! r.Keys ==> forall t :: Holds(m + r, t) <==> Holds(m, t) || Holds(r, t)
  {}

  // ----- demotion -----

  /** The pending transactions of a from the chain nonce on. */
  function Unmined(p: Pool, a: Address): Items { From(Of(p.pending, a), p.chain.Nonce(a)) }

  /** demoteUnexecutables for one account: drop mined and unpayable transactions, queue what
      they invalidate, and queue everything if the front nonce is missing. */
  function DemoteAccount(p: Pool, a: Address): Pool {
    if a !in p.pending then p
    else
      var live := Unmined(p, a);
      var kept := Kept(live, true, p.chain.Balance(a), p.chain.maxGas);
      var gapped := kept != map[] && p.chain.Nonce(a) !in kept;
      var back := Invalidated(live, true, p.chain.Balance(a), p.chain.maxGas) + if gapped then kept else map[];
      var known := p.known - TxsOf(Below(Of(p.pending, a), p.chain.Nonce(a)))
                           - TxsOf(Unpayables(live, p.chain.Balance(a), p.chain.maxGas));
      Update(p, a, if gapped then map[] else kept, Of(p.queue, a) + back, known)
  }

  lemma DemoteInv(p: Pool, a: Address)
    requires Inv(p)
    ensures Inv(DemoteAccount(p, a))
  {
    hide Inv, Of, With, Belongs, Holds, Kept, Invalidated, Unpayables, Below, From, TxsOf;
    if a !in p.pending {
      return;
    }
    var pend, queued := Of(p.pending, a), Of(p.queue, a);
    var n, balance, maxGas := p.chain.Nonce(a), p.chain.Balance(a), p.chain.maxGas;
    var live := From(pend, n);
    var kept := Kept(live, true, balance, maxGas);
    var gapped := kept != map[] && n !in kept;
    var inval, bad, olds := Invalidated(live, true, balance, maxGas), Unpayables(live, balance, maxGas), Below(pend, n);
    AccountInv(p, a);
    FilterPartition(live, true, balance, maxGas);
    DemoteParts(pend, n, live, olds, kept, inval, bad);
    if gapped {
      Regroup(pend, olds, bad, kept, inval);
      MoveBack(p.known, a, pend, queued, olds, bad, map[], inval + kept);
      UpdateInv(p, a, map[], queued + (inval + kept), p.known - TxsOf(olds) - TxsOf(bad));
    } else {
      assert inval + map[] == inval;
      MoveBack(p.known, a, pend, queued, olds, bad, kept, inval);
      UpdateInv(p, a, kept, queued + inval, p.known - TxsOf(olds) - TxsOf(bad));
    }
  }

  /** m is the disjoint union of its four parts. */
  ghost predicate Quarters(m: Items, w: Items, x: Items, y: Items, z: Items) {
    && Part(w, m) && Part(x, m) && Part(y, m) && Part(z, m)
    && m.Keys == w.Keys + x.Keys + y.Keys + z.Keys
    && w.Keys !! x.Keys !! y.Keys !! z.Keys
  }

  lemma Regroup(m: Items, w: Items, x: Items, y: Items, z: Items)
    requires Quarters(m, w, x, y, z)
    ensures Quarters(m, w, x, map[], z + y)
  {}

  lemma DemoteParts(pend: Items, n: nat, live: Items, olds: Items, kept: Items, inval: Items, bad: Items)
    requires live == From(pend, n) && olds == Below(pend, n)
    requires kept.Keys !! inval.Keys !! bad.Keys && kept + inval + bad == live
    ensures Quarters(pend, olds, bad, kept, inval)
  {
    forall k ensures (k in kept ==> live[k] == kept[k]) && (k in inval ==> live[k] == inval[k]) && (k in bad ==> live[k] == bad[k]) {
      assert k in live <==> k in kept + inval + bad;
    }
    assert live.Keys == kept.Keys + inval.Keys + bad.Keys;
    assert pend.Keys == olds.Keys + live.Keys;
  }

  /** Dropping olds and bad from pend, keeping `kept` and filing `back` under the queue. */
  lemma MoveBack(known: set<Tx>, a: Address, pend: Items, queued: Items, olds: Items, bad: Items, kept: Items, back: Items)
    requires Belongs(pend, a) && Belongs(queued, a) && pend.Keys !! queued.Keys
    requires forall t: Tx :: t.from == a ==> (t in known <==> Holds(pend, t) || Holds(queued, t))
    requires Quarters(pend, olds, bad, kept, back)
    ensures Belongs(kept, a) && Belongs(queued + back, a) && kept.Keys !! (queued + back).Keys
    ensures var known' := known - TxsOf(olds) - TxsOf(bad);
      && (forall t: Tx :: t.from == a ==> (t in known' <==> Holds(kept, t) || Holds(queued + back, t)))
      && (forall t: Tx :: t.from != a ==> (t in known' <==> t in known))
  {
    HoldsTxs(olds, a);
    HoldsTxs(bad, a);
    QuartersHold(pend, olds, bad, kept, back);
    HoldsJoin(queued, back);
    MoveFiled(a, pend, queued, olds, bad, kept, back);
    assert forall t :: !(Holds(pend, t) && Holds(queued, t));
    hide Holds, TxsOf, Quarters, Belongs;
    assert forall t :: t in TxsOf(olds) || t in TxsOf(bad) ==> Holds(pend, t);
  }

  lemma MoveFiled(a: Address, pend: Items, queued: Items, olds: Items, bad: Items, kept: Items, back: Items)
    requires Belongs(pend, a) && Belongs(queued, a) && pend.Keys !! queued.Keys
    requires Quarters(pend, olds, bad, kept, back)
    ensures Belongs(kept, a) && Belongs(queued + back, a) && kept.Keys !! (queued + back).Keys
    ensures queued.Keys !! back.Keys
    ensures forall t :: t in TxsOf(olds) || t in TxsOf(bad) ==> t.from == a
  {}

  lemma QuartersHold(m: Items, w: Items, x: Items, y: Items, z: Items)
    requires Quarters(m, w, x, y, z)
    ensures forall t :: Holds(m, t) <==> Holds(w, t) || Holds(x, t) || Holds(y, t) || Holds(z, t)
    ensures forall t :: Holds(y, t) || Holds(z, t) ==> !Holds(w, t) && !Holds(x, t)
  {}

  /** setAll: the virtual nonces restart from the last pending transactions. */
  function Renonce(p: Pool): Pool
    requires forall a :: a in p.pending ==> p.pending[a] != map[]
  {
    p.(nonces := map a | a in p.pending :: Next(MaxKey(p.pending[a])))
  }

  // ----- truncation -----

  /** Capping a's pending list at k: list.Cap with the bookkeeping that follows it. */
  function CapAccount(p: Pool, a: Address, k: nat): Pool {
    var pend := Of(p.pending, a);
    var cut := Cut(pend, k);
    if cut == map[] then p
    else
      p.(pending := With(p.pending, a, Lowest(pend, k)), known := p.known - TxsOf(cut), nonces := SetIfLower(p, a, MinKey(cut)))
  }

  lemma CapInv(p: Pool, a: Address, k: nat)
    requires Inv(p)
    ensures Inv(CapAccount(p, a, k))
  {
    hide Inv, Of, With, Belongs, Holds, Lowest, Cut, TxsOf, SetIfLower;
    var pend, queued := Of(p.pending, a), Of(p.queue, a);
    var kept, cut := Lowest(pend, k), Cut(pend, k);
    if cut == map[] {
      return;
    }
    AccountInv(p, a);
    CutParts(pend, k);
    MoveBack(p.known, a, pend, queued, cut, map[], kept, map[]);
    assert queued + map[] == queued;
    var known := p.known - TxsOf(cut) - TxsOf(map[]);
    assert known == p.known - TxsOf(cut) by { NoTxs(); }
    UpdateInv(p, a, kept, queued, known);
    NoncesFree(Update(p, a, kept, queued, known), SetIfLower(p, a, MinKey(cut)));
    QueueSame(p, a);
  }

  lemma NoTxs()
    ensures TxsOf(map[]) == {}
  {}

  lemma QueueSame(p: Pool, a: Address)
    requires Inv(p)
    ensures With(p.queue, a, Of(p.queue, a)) == p.queue
  {
    WithSame(p.queue, a);
  }

  lemma CutParts(m: Items, k: nat)
    ensures Quarters(m, Cut(m, k), map[], Lowest(m, k), map[])
  {}

  // ----- any operation -----

  /** The elementary effects every pool operation is made of. */
  datatype Edit =
    | Drop(tx: Tx)
    | Put(tx: Tx)
    | Promote(a: Address)
    | Demote(a: Address)
    | Cap(a: Address, k: nat)
    | MarkLocal(a: Address)
    | NewHead(chain: Chain)
    | SetAll

  function Apply(p: Pool, e: Edit, c: Config): Pool
    requires Inv(p)
  {
    match e
    case Drop(tx) => RemoveTx(p, tx)
    case Put(tx) => if tx in p.known then p else Insert(p, tx, c.priceBump).0
    case Promote(a) => PromoteAccount(p, a, c.accountQueue)
    case Demote(a) => DemoteAccount(p, a)
    case Cap(a, k) => CapAccount(p, a, k)
    case MarkLocal(a) => p.(locals := p.locals + {a})
    case NewHead(chain) => p.(chain := chain, nonces := map[])
    case SetAll => Renonce(p)
  }

  /** Whatever a pool operation does, the pool's structures stay consistent. */
  lemma ApplyInv(p: Pool, e: Edit, c: Config)
    requires Inv(p)
    ensures Inv(Apply(p, e, c))
  {
    match e
    case Drop(tx) => RemoveTxInv(p, tx);
    case Put(tx) => if tx !in p.known { InsertInv(p, tx, c.priceBump); }
    case Promote(a) => PromoteInv(p, a, c.accountQueue);
    case Demote(a) => DemoteInv(p, a);
    case Cap(a, k) => CapInv(p, a, k);
    case MarkLocal(a) => InvFrame(p, Apply(p, e, c));
    case NewHead(chain) => InvFrame(p, Apply(p, e, c));
    case SetAll => NoncesFree(p, Renonce(p).nonces);
  }

  lemma InvFrame(p: Pool, q: Pool)
    requires Inv(p) && q.pending == p.pending && q.queue == p.queue && q.known == p.known
    ensures Inv(q)
  {
    hide Of, Holds, WellPlaced;
    forall b ensures Apart(q, b) { assert Apart(p, b); }
    forall t ensures t in q.known <==> Listed(q, t) { assert t in p.known <==> Listed(p, t); }
  }

  function Replay(p: Pool, es: seq<Edit>, c: Config): (r: Pool)
    requires Inv(p)
    ensures Inv(r)
    decreases |es|
  {
    if es == [] then p
    else
      ApplyInv(p, es[0], c);
      Replay(Apply(p, es[0], c), es[1..], c)
  }

  lemma {:induction false} ReplayAppend(p: Pool, xs: seq<Edit>, ys: seq<Edit>, c: Config)
    requires Inv(p)
    ensures Replay(p, xs + ys, c) == Replay(Replay(p, xs, c), ys, c)
    decreases |xs|
  {
    if xs == [] {
      assert xs + ys == ys;
    } else {
      ApplyInv(p, xs[0], c);
      assert (xs + ys)[1..] == xs[1..] + ys;
      ReplayAppend(Apply(p, xs[0], c), xs[1..], ys, c);
    }
  }

  lemma ReplaySnoc(p: Pool, es: seq<Edit>, e: Edit, c: Config)
    requires Inv(p)
    ensures Replay(p, es + [e], c) == Apply(Replay(p, es, c), e, c)
  {
    ReplayAppend(p, es, [e], c);
    ReplayOne(Replay(p, es, c), e, c);
  }

  function Promotions(accounts: seq<Address>): seq<Edit> { seq(|accounts|, i requires 0 <= i < |accounts| => Promote(accounts[i])) }

  function Demotions(accounts: seq<Address>): seq<Edit> { seq(|accounts|, i requires 0 <= i < |accounts| => Demote(accounts[i])) }

  function Caps(accounts: seq<Address>, k: nat): seq<Edit> { seq(|accounts|, i requires 0 <= i < |accounts| => Cap(accounts[i], k)) }

  ghost predicate AllCaps(es: seq<Edit>) { forall e :: e in es ==> e.Cap? }

  function Drops(txs: seq<Tx>): seq<Edit> { seq(|txs|, i requires 0 <= i < |txs| => Drop(txs[i])) }

  /** Removing a list of transactions is replaying one drop for each. */
  lemma {:induction false} DropsReplay(p: Pool, txs: seq<Tx>, c: Config)
    requires Inv(p)
    ensures Replay(p, Drops(txs), c) == RemoveAll(p, txs)
    decreases |txs|
  {
    if txs == [] {
      assert Drops(txs) == [];
    } else {
      ApplyInv(p, Drop(txs[0]), c);
      assert Drops(txs)[1..] == Drops(txs[1..]);
      DropsReplay(RemoveTx(p, txs[0]), txs[1..], c);
    }
  }

  lemma {:induction false} RemoveAllSnoc(p: Pool, txs: seq<Tx>, tx: Tx)
    ensures RemoveAll(p, txs + [tx]) == RemoveTx(RemoveAll(p, txs), tx)
    decreases |txs|
  {
    if txs == [] {
      assert [tx][1..] == [];
    } else {
      assert (txs + [tx])[1..] == txs[1..] + [tx];
      RemoveAllSnoc(RemoveTx(p, txs[0]), txs[1..], tx);
    }
  }

  lemma ReplayOne(p: Pool, e: Edit, c: Config)
    requires Inv(p)
    ensures Inv(Apply(p, e, c)) && Replay(p, [e], c) == Apply(p, e, c)
  {
    ApplyInv(p, e, c);
    assert [e][1..] == [];
  }

  const EmptyPool := Pool(map[], map[], {}, map[], Chain(map[], map[], 0), {})

  /** Over every run from the empty pool: no transaction is pooled twice, none is lost from
      the lookup, and none lingers there after leaving its list. */
  lemma EveryRunIsConsistent(es: seq<Edit>, c: Config)
    ensures Inv(EmptyPool)
    ensures var p := Replay(EmptyPool, es, c);
      && (forall t :: t in p.known ==> Holds(Of(p.pending, t.from), t) != Holds(Of(p.queue, t.from), t))
      && (forall a, n :: n in Of(p.pending, a) ==> Of(p.pending, a)[n] in p.known && n !in Of(p.queue, a))
      && (forall a, n :: n in Of(p.queue, a) ==> Of(p.queue, a)[n] in p.known)
      && (forall a :: a in p.pending ==> p.pending[a] != map[]) && (forall a :: a in p.queue ==> p.queue[a] != map[])
  {
    assert Inv(EmptyPool);
    var p := Replay(EmptyPool, es, c);
    forall t | t in p.known ensures Holds(Of(p.pending, t.from), t) != Holds(Of(p.queue, t.from), t) {
      assert Listed(p, t) && Apart(p, t.from);
    }
    forall a, n | n in Of(p.pending, a) ensures Of(p.pending, a)[n] in p.known && n !in Of(p.queue, a) {
      AccountInv(p, a);
      assert Holds(Of(p.pending, a), Of(p.pending, a)[n]);
    }
    forall a, n | n in Of(p.queue, a) ensures Of(p.queue, a)[n] in p.known {
      AccountInv(p, a);
      assert Holds(Of(p.queue, a), Of(p.queue, a)[n]);
    }
  }
}
