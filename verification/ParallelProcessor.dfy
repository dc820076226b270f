/** ParallelStateProcessor: the batched loop and the three-stage pipeline, against the plain
    sequential loop. */
module ParallelProcessors {
  import opened Transactions

  type Log = nat

  datatype Receipt = Receipt(content: nat, logs: seq<Log>)

  /** Applying one transaction: a new state (world state, gas pool and gas used) with a
      receipt, or an error that may still have touched the state. */
  datatype Applied<S> = Applied(state: S, receipt: Receipt) | Failed(state: S)

  /** What is to be processed: how a transaction of a given index is applied, which
      transactions turn into a message at all, the state to start from, and the list. */
  datatype Job<!S> = Job(apply: (S, nat, nat) -> Applied<S>, valid: nat -> bool, start: S, txs: seq<nat>)

  function Step<S>(x: Job<S>, s: S, i: nat): Applied<S>
    requires i < |x.txs|
  {
    if x.valid(x.txs[i]) then x.apply(s, x.txs[i], i) else Failed(s)
  }

  // ----- the sequential loop -----

  /** The state after the first k transactions when failing ones are passed over. */
  function After<S>(x: Job<S>, k: nat): S
    requires k <= |x.txs|
  {
    if k == 0 then x.start else Step(x, After(x, k - 1), k - 1).state
  }

  /** What becomes of transaction i there. */
  function Result<S>(x: Job<S>, i: nat): Option<Receipt>
    requires i < |x.txs|
  {
    var r := Step(x, After(x, i), i);
    if r.Applied? then Some(r.receipt) else None
  }

  function ResultAt<S>(x: Job<S>, start: nat, i: nat): Option<Receipt>
    requires start + i < |x.txs|
  {
    Result(x, start + i)
  }

  function LogsOf(r: Option<Receipt>): seq<Log> { if r.Some? then r.value.logs else [] }

  function AllLogs<S>(x: Job<S>, k: nat): seq<Log>
    requires k <= |x.txs|
  {
    if k == 0 then [] else AllLogs(x, k - 1) + LogsOf(Result(x, k - 1))
  }

  /** The first k transactions all succeed. */
  ghost predicate Succeeds<S>(x: Job<S>, k: nat)
    requires k <= |x.txs|
  {
    forall i :: 0 <= i < k ==> Result(x, i).Some?
  }

  /** The sequential loop stops at the first failure; this is all it can answer. */
  datatype Outcome<S> = Finished(state: S, receipts: seq<Option<Receipt>>, logs: seq<Log>) | StoppedAt(index: nat, state: S)

  ghost predicate IsSequential<S>(x: Job<S>, o: Outcome<S>) {
    match o
    case Finished(state, receipts, logs) =>
      && Succeeds(x, |x.txs|) && state == After(x, |x.txs|) && logs == AllLogs(x, |x.txs|)
      && |receipts| == |x.txs| && forall i :: 0 <= i < |x.txs| ==> receipts[i] == Result(x, i)
    case StoppedAt(index, state) =>
      index < |x.txs| && Succeeds(x, index) && Result(x, index).None? && state == After(x, index + 1)
  }

  /** There is only one such answer, so any two loops that give one agree, down to the index
      of the failing transaction. */
  lemma SequentialUnique<S>(x: Job<S>, o: Outcome<S>, r: Outcome<S>)
    requires IsSequential(x, o) && IsSequential(x, r)
    ensures o == r
  {
    hide Result, After, AllLogs;
    assert o.StoppedAt? ==> !Succeeds(x, |x.txs|);
    assert r.StoppedAt? ==> !Succeeds(x, |x.txs|);
    if o.Finished? {
      assert r.Finished? && o.receipts == r.receipts;
    } else {
      assert Result(x, o.index).None? && Result(x, r.index).None?;
    }
  }

  lemma Nothing<S>(x: Job<S>)
    ensures After(x, 0) == x.start && AllLogs(x, 0) == [] && Succeeds(x, 0)
  {}

  /** One more transaction. */
  lemma Advance<S>(x: Job<S>, k: nat)
    requires k < |x.txs|
    ensures var r := Step(x, After(x, k), k);
      && After(x, k + 1) == r.state
      && Result(x, k) == (if r.Applied? then Some(r.receipt) else None)
      && AllLogs(x, k + 1) == AllLogs(x, k) + (if r.Applied? then r.receipt.logs else [])
      && (Succeeds(x, k) && r.Applied? ==> Succeeds(x, k + 1))
      && (Succeeds(x, k) && r.Failed? ==> IsSequential(x, StoppedAt(k, r.state)))
  {}

  class ParallelStateProcessor {
    const txBatchSize: pos
    const maxTxConcurrency: nat

    constructor (txBatchSize: pos, maxTxConcurrency: nat)
      ensures this.txBatchSize == txBatchSize && this.maxTxConcurrency == maxTxConcurrency
    {
      this.txBatchSize, this.maxTxConcurrency := txBatchSize, maxTxConcurrency;
    }

    /** processSequentialTransactions. */
    method ProcessSequential<S>(x: Job<S>) returns (o: Outcome<S>)
      ensures IsSequential(x, o)
    {
      hide After, Result, AllLogs, Succeeds;
      Nothing(x);
      var receipts := new Option<Receipt>[|x.txs|](_ => None);
      var allLogs: seq<Log> := [];
      var state := x.start;
      for i := 0 to |x.txs|
        invariant state == After(x, i) && allLogs == AllLogs(x, i) && Succeeds(x, i)
        invariant forall j :: 0 <= j < i ==> receipts[j] == Result(x, j)
      {
        Advance(x, i);
        if !x.valid(x.txs[i]) {
          return StoppedAt(i, state);
        }
        var r := x.apply(state, x.txs[i], i);
        state := r.state;
        if r.Failed? {
          return StoppedAt(i, state);
        }
        receipts[i] := Some(r.receipt);
        allLogs := allLogs + r.receipt.logs;
      }
      return Finished(state, receipts[..], allLogs);
    }

    /** processBatch: one slice of the list, under its global indices. */
    method ProcessBatch<S>(x: Job<S>, start: nat, end: nat, state: S) returns (receipts: seq<Option<Receipt>>, logs: seq<Log>, state': S, failed: Option<nat>)
      requires start <= end <= |x.txs| && state == After(x, start) && Succeeds(x, start)
      ensures failed.None? ==>
        && Succeeds(x, end) && state' == After(x, end) && AllLogs(x, end) == AllLogs(x, start) + logs
        && |receipts| == end - start && forall i :: 0 <= i < end - start ==> receipts[i] == ResultAt(x, start, i)
      ensures failed.Some? ==> failed.value < end && IsSequential(x, StoppedAt(failed.value, state'))
    {
      hide After, Result, AllLogs, Succeeds;
      var slots := new Option<Receipt>[end - start](_ => None);
      logs, state' := [], state;
      for i := 0 to end - start
        invariant state' == After(x, start + i) && Succeeds(x, start + i)
        invariant AllLogs(x, start + i) == AllLogs(x, start) + logs
        invariant forall j :: 0 <= j < i ==> slots[j] == ResultAt(x, start, j)
      {
        Advance(x, start + i);
        if !x.valid(x.txs[start + i]) {
          return [], [], state', Some(start + i);
        }
        var r := x.apply(state', x.txs[start + i], start + i);
        state' := r.state;
        if r.Failed? {
          return [], [], state', Some(start + i);
        }
        slots[i] := Some(r.receipt);
        logs := logs + r.receipt.logs;
      }
      return slots[..], logs, state', None;
    }

    /** processBatchedTransactions: for any batch size the answer is the sequential one. */
    method ProcessBatched<S>(x: Job<S>) returns (o: Outcome<S>)
      ensures IsSequential(x, o)
    {
      hide After, Result, AllLogs, Succeeds;
      Nothing(x);
      var n := |x.txs|;
      var receipts: seq<Option<Receipt>> := [];
      var allLogs: seq<Log> := [];
      var state := x.start;
      var numBatches := (n + txBatchSize - 1) / txBatchSize;
      BatchesCover(n, txBatchSize);
      for batchIdx := 0 to numBatches
        invariant var done := Min(batchIdx * txBatchSize, n);
          && |receipts| == done && state == After(x, done) && allLogs == AllLogs(x, done) && Succeeds(x, done)
          && forall j :: 0 <= j < done ==> receipts[j] == Result(x, j)
      {
        BatchStart(batchIdx, numBatches, n, txBatchSize);
        var start := batchIdx * txBatchSize;
        var end := start + txBatchSize;
        if end > n {
          end := n;
        }
        var batchReceipts, batchLogs, next, failed := ProcessBatch(x, start, end, state);
        state := next;
        if failed.Some? {
          return StoppedAt(failed.value, state);
        }
        JoinResults(x, start, end, receipts, batchReceipts);
        receipts := receipts + batchReceipts;
        allLogs := allLogs + batchLogs;
      }
      return Finished(state, receipts, allLogs);
    }

    /** processPipelinedTransactions under an arbitrary scheduler. */
    method ProcessPipelined<S>(x: Job<S>) returns (state: S, receipts: seq<Option<Receipt>>, logs: seq<Log>)
      ensures |receipts| == |x.txs| && (forall i :: 0 <= i < |x.txs| ==> receipts[i] == Result(x, i))
      ensures state == After(x, |x.txs|) && logs == AllLogs(x, |x.txs|)
      ensures forall o :: IsSequential(x, o) ==> Matches(o, state, receipts, logs)
    {
      hide Inv, Enabled, Next, Left, Result, After, AllLogs, IsSequential, Matches;
      var p := Begin(x);
      BeginInv(x, maxTxConcurrency);
      while !p.done
        invariant Inv(x, maxTxConcurrency, p)
        decreases Left(x, p)
      {
        NoDeadlock(x, maxTxConcurrency, p);
        var move :| Enabled(x, maxTxConcurrency, p, move);
        NextKeeps(x, maxTxConcurrency, p, move);
        p := Next(x, p, move);
      }
      DoneMeans(x, maxTxConcurrency, p);
      forall o | IsSequential(x, o) ensures Matches(o, p.state, p.receipts, p.logs) {
        PipelineMatches(x, o, p.state, p.receipts, p.logs);
      }
      return p.state, p.receipts, p.logs;
    }
  }

  lemma JoinResults<S>(x: Job<S>, start: nat, end: nat, a: seq<Option<Receipt>>, b: seq<Option<Receipt>>)
    requires start <= end <= |x.txs| && |a| == start && |b| == end - start
    requires forall i :: 0 <= i < start ==> a[i] == Result(x, i)
    requires forall i :: 0 <= i < end - start ==> b[i] == ResultAt(x, start, i)
    ensures forall i :: 0 <= i < end ==> (a + b)[i] == Result(x, i)
  {
    forall i | 0 <= i < end ensures (a + b)[i] == Result(x, i) {
      if i >= start { assert b[i - start] == ResultAt(x, start, i - start); }
    }
  }

  lemma BatchesCover(n: nat, size: pos)
    ensures ((n + size - 1) / size) * size >= n
  {
    var q := (n + size - 1) / size;
    assert n + size - 1 < q * size + size;
  }

  lemma BatchStart(i: nat, numBatches: nat, n: nat, size: pos)
    requires i < numBatches == (n + size - 1) / size
    ensures i * size < n && (i + 1) * size == i * size + size
  {
    assert numBatches * size <= n + size - 1;
    assert (i + 1) * size <= numBatches * size;
  }

  // ----- the pipeline -----

  datatype Validated = Validated(index: nat, ok: bool)

  datatype Executed = Executed(index: nat, receipt: Option<Receipt>)

  /** The three stages and the two bounded channels between them. The executor holds a result
      while it waits for room to send it. */
  datatype Pipe<S> = Pipe(
    sent: nat, validated: seq<Validated>, validatedClosed: bool,
    state: S, holding: Option<Executed>, executed: seq<Executed>, executedClosed: bool,
    receipts: seq<Option<Receipt>>, logs: seq<Log>, done: bool)

  datatype Move = Validate | CloseValidated | Execute | Send | CloseExecuted | Collect | Finish

  function Begin<S>(x: Job<S>): Pipe<S> {
    Pipe(0, [], false, x.start, None, [], false, seq(|x.txs|, _ => None), [], false)
  }

  /** A channel takes a value: it has room, or it has no buffer and the reader is waiting. */
  predicate Takes(capacity: nat, length: nat, waiting: bool) {
    length < capacity || (capacity == 0 && length == 0 && waiting)
  }

  /** A stage can take a step: a channel takes a value, or has something to receive, or is
      drained. A value handed over without a buffer stays listed until the reader uses it. */
  predicate Enabled<S>(x: Job<S>, capacity: nat, p: Pipe<S>, move: Move) {
    match move
    case Validate => p.sent < |x.txs| && Takes(capacity, |p.validated|, p.holding.None?)
    case CloseValidated => p.sent >= |x.txs| && !p.validatedClosed
    case Execute => p.holding.None? && |p.validated| > 0 && p.validated[0].index < |x.txs|
    case Send => p.holding.Some? && Takes(capacity, |p.executed|, !p.done)
    case CloseExecuted => p.holding.None? && |p.validated| == 0 && p.validatedClosed && !p.executedClosed
    case Collect => |p.executed| > 0 && p.executed[0].index < |p.receipts| && !p.done
    case Finish => |p.executed| == 0 && p.executedClosed && !p.done
  }

  function Next<S>(x: Job<S>, p: Pipe<S>, move: Move): Pipe<S>
    requires exists capacity: nat :: Enabled(x, capacity, p, move)
  {
    match move
    case Validate => p.(sent := p.sent + 1, validated := p.validated + [Validated(p.sent, x.valid(x.txs[p.sent]))])
    case CloseValidated => p.(validatedClosed := true)
    case Execute =>
      var v := p.validated[0];
      if !v.ok then p.(validated := p.validated[1..], holding := Some(Executed(v.index, None)))
      else
        var r := x.apply(p.state, x.txs[v.index], v.index);
        p.(validated := p.validated[1..], state := r.state,
           holding := Some(Executed(v.index, if r.Applied? then Some(r.receipt) else None)))
    case Send => p.(holding := None, executed := p.executed + [p.holding.value])
    case CloseExecuted => p.(executedClosed := true)
    case Collect =>
      var e := p.executed[0];
      if e.receipt.None? then p.(executed := p.executed[1..])
      else p.(executed := p.executed[1..], receipts := p.receipts[e.index := e.receipt], logs := p.logs + e.receipt.value.logs)
    case Finish => p.(done := true)
  }

  function Held<S>(p: Pipe<S>): nat { if p.holding.Some? then 1 else 0 }

  /** Transactions are in order everywhere: collected ones first, then those on the second
      channel, the one held, those on the first channel, and the rest. */
  ghost predicate Inv<S>(x: Job<S>, capacity: nat, p: Pipe<S>) {
    var n := |x.txs|;
    var taken := p.sent - |p.validated|;
    var collected := taken - Held(p) - |p.executed|;
    && p.sent <= n && 0 <= collected
    && (if capacity == 0 then |p.validated| + Held(p) <= 1 && |p.executed| <= 1 else |p.validated| <= capacity && |p.executed| <= capacity)
    && (forall j :: 0 <= j < |p.validated| ==> p.validated[j] == Validated(taken + j, x.valid(x.txs[taken + j])))
    && p.state == After(x, taken)
    && (p.holding.Some? ==> p.holding.value == Executed(taken - 1, Result(x, taken - 1)))
    && (forall j :: 0 <= j < |p.executed| ==> p.executed[j] == Executed(collected + j, Result(x, collected + j)))
    && |p.receipts| == n
    && (forall i :: 0 <= i < n ==> p.receipts[i] == if i < collected then Result(x, i) else None)
    && p.logs == AllLogs(x, collected)
    && (p.validatedClosed ==> p.sent == n)
    && (p.executedClosed ==> p.validatedClosed && |p.validated| == 0 && p.holding.None?)
    && (p.done ==> p.executedClosed && |p.executed| == 0)
  }

  /** How many moves are left. */
  function Left<S>(x: Job<S>, p: Pipe<S>): int {
    4 * (|x.txs| - p.sent) + 3 * |p.validated| + 2 * Held(p) + |p.executed|
      + (if p.validatedClosed then 0 else 1) + (if p.executedClosed then 0 else 1) + (if p.done then 0 else 1)
  }

  lemma BeginInv<S>(x: Job<S>, capacity: nat)
    ensures Inv(x, capacity, Begin(x))
  {}

  lemma NextKeeps<S>(x: Job<S>, capacity: nat, p: Pipe<S>, move: Move)
    requires Inv(x, capacity, p) && Enabled(x, capacity, p, move)
    ensures Inv(x, capacity, Next(x, p, move)) && 0 <= Left(x, Next(x, p, move)) < Left(x, p)
  {
    InvBounds(x, capacity, p);
    hide Inv, Enabled, Next, Left, Result, After, AllLogs;
    LeftShrinks(x, capacity, p, move);
    match move
    case Execute => ExecuteKeeps(x, capacity, p);
    case Collect => CollectKeeps(x, capacity, p);
    case Send => SendKeeps(x, capacity, p);
    case Validate => ValidateKeeps(x, capacity, p);
    case CloseValidated => CloseKeeps(x, capacity, p, move);
    case CloseExecuted => CloseKeeps(x, capacity, p, move);
    case Finish => CloseKeeps(x, capacity, p, move);
  }

  lemma InvBounds<S>(x: Job<S>, capacity: nat, p: Pipe<S>)
    requires Inv(x, capacity, p)
    ensures p.sent <= |x.txs|
  {}

  lemma ValidateKeeps<S>(x: Job<S>, capacity: nat, p: Pipe<S>)
    requires Inv(x, capacity, p) && Enabled(x, capacity, p, Validate)
    ensures Inv(x, capacity, Next(x, p, Validate))
  {
    hide Result, After, AllLogs;
  }

  lemma CloseKeeps<S>(x: Job<S>, capacity: nat, p: Pipe<S>, move: Move)
    requires Inv(x, capacity, p) && Enabled(x, capacity, p, move) && (move.CloseValidated? || move.CloseExecuted? || move.Finish?)
    ensures Inv(x, capacity, Next(x, p, move))
  {
    hide Result, After, AllLogs;
  }

  lemma LeftShrinks<S>(x: Job<S>, capacity: nat, p: Pipe<S>, move: Move)
    requires p.sent <= |x.txs| && Enabled(x, capacity, p, move)
    ensures 0 <= Left(x, Next(x, p, move)) < Left(x, p)
  {}

  lemma ExecuteKeeps<S>(x: Job<S>, capacity: nat, p: Pipe<S>)
    requires Inv(x, capacity, p) && Enabled(x, capacity, p, Execute)
    ensures Inv(x, capacity, Next(x, p, Execute))
  {
    hide Result, After, AllLogs;
    Advance(x, p.sent - |p.validated|);
  }

  /** What the collector does: the next receipt and its logs. */
  lemma CollectIs<S>(x: Job<S>, capacity: nat, p: Pipe<S>)
    requires Inv(x, capacity, p) && Enabled(x, capacity, p, Collect)
    ensures var c := p.sent - |p.validated| - Held(p) - |p.executed|;
      c < |p.receipts| && Next(x, p, Collect) == p.(executed := p.executed[1..], receipts := p.receipts[c := Result(x, c)], logs := AllLogs(x, c + 1))
  {
    hide After, Result, AllLogs;
    var c := p.sent - |p.validated| - Held(p) - |p.executed|;
    Advance(x, c);
    assert p.executed[0] == Executed(c, Result(x, c)) && p.receipts[c] == None;
    assert p.receipts[c := None] == p.receipts;
    hide Step;
  }

  lemma CollectKeeps<S>(x: Job<S>, capacity: nat, p: Pipe<S>)
    requires Inv(x, capacity, p) && Enabled(x, capacity, p, Collect)
    ensures Inv(x, capacity, Next(x, p, Collect))
  {
    hide After, Result, AllLogs, Next;
    CollectIs(x, capacity, p);
  }

  lemma SendKeeps<S>(x: Job<S>, capacity: nat, p: Pipe<S>)
    requires Inv(x, capacity, p) && Enabled(x, capacity, p, Send)
    ensures Inv(x, capacity, Next(x, p, Send))
  {
    hide After, Result, AllLogs;
  }

  /** Until the collector is done, some stage can move. */
  lemma NoDeadlock<S>(x: Job<S>, capacity: nat, p: Pipe<S>)
    requires Inv(x, capacity, p) && !p.done
    ensures exists move :: Enabled(x, capacity, p, move)
  {
    hide After, Result, AllLogs;
    var move :=
      if |p.executed| > 0 then Collect
      else if p.holding.Some? then Send
      else if |p.validated| > 0 then Execute
      else if p.sent < |x.txs| then Validate
      else if !p.validatedClosed then CloseValidated
      else if !p.executedClosed then CloseExecuted
      else Finish;
    assert Enabled(x, capacity, p, move);
  }

  /** Any number of moves, each of them possible when it is made. */
  ghost predicate IsRun<S>(x: Job<S>, capacity: nat, p: Pipe<S>, moves: seq<Move>, q: Pipe<S>)
    decreases |moves|
  {
    if moves == [] then p == q
    else Enabled(x, capacity, p, moves[0]) && IsRun(x, capacity, Next(x, p, moves[0]), moves[1..], q)
  }

  /** Whatever the interleaving of the stages: the pipeline is never stuck, it stops within a
      bounded number of moves, and when it has stopped every transaction has the receipt it
      has in the plain loop that passes over failures, with the same final state and logs. */
  lemma {:induction false} EveryInterleaving<S>(x: Job<S>, capacity: nat, p: Pipe<S>, moves: seq<Move>, q: Pipe<S>)
    requires Inv(x, capacity, p) && IsRun(x, capacity, p, moves, q)
    ensures Inv(x, capacity, q) && |moves| <= Left(x, p) - Left(x, q)
    ensures !q.done ==> exists move :: Enabled(x, capacity, q, move)
    ensures q.done ==> q.state == After(x, |x.txs|) && q.logs == AllLogs(x, |x.txs|)
    ensures q.done ==> |q.receipts| == |x.txs| && forall i :: 0 <= i < |x.txs| ==> q.receipts[i] == Result(x, i)
    ensures q.done ==> forall o :: IsSequential(x, o) ==> Matches(o, q.state, q.receipts, q.logs)
    decreases |moves|
  {
    hide Inv, Enabled, Next, Left, Result, After, AllLogs, IsSequential, Matches;
    if moves == [] {
      if q.done {
        DoneMeans(x, capacity, q);
        forall o | IsSequential(x, o) ensures Matches(o, q.state, q.receipts, q.logs) { PipelineMatches(x, o, q.state, q.receipts, q.logs); }
      } else {
        NoDeadlock(x, capacity, q);
      }
    } else {
      NextKeeps(x, capacity, p, moves[0]);
      EveryInterleaving(x, capacity, Next(x, p, moves[0]), moves[1..], q);
    }
  }

  /** Against the sequential loop's answer: the same if that finishes, and else a pass over
      failures whose first one is where the sequential loop stops. */
  ghost predicate Matches<S>(o: Outcome<S>, state: S, receipts: seq<Option<Receipt>>, logs: seq<Log>) {
    match o
    case Finished(_, _, _) => o == Finished(state, receipts, logs)
    case StoppedAt(index, _) => index < |receipts| && receipts[index].None? && forall i :: 0 <= i < index ==> receipts[i].Some?
  }

  lemma PipelineMatches<S>(x: Job<S>, o: Outcome<S>, state: S, receipts: seq<Option<Receipt>>, logs: seq<Log>)
    requires |receipts| == |x.txs| && (forall i :: 0 <= i < |x.txs| ==> receipts[i] == Result(x, i))
    requires state == After(x, |x.txs|) && logs == AllLogs(x, |x.txs|) && IsSequential(x, o)
    ensures Matches(o, state, receipts, logs)
  {
    hide Result, After, AllLogs;
  }

  lemma DoneMeans<S>(x: Job<S>, capacity: nat, p: Pipe<S>)
    requires Inv(x, capacity, p) && p.done
    ensures |p.receipts| == |x.txs| && forall i :: 0 <= i < |x.txs| ==> p.receipts[i] == Result(x, i)
    ensures p.state == After(x, |x.txs|) && p.logs == AllLogs(x, |x.txs|)
  {}
}
