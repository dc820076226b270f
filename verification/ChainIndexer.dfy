/** ChainIndexer: fixed-size sections of the canonical chain, indexed in the background while
    the chain may reorganise between any two header reads. */
module ChainIndexers {
  import opened BlockTree
  import opened Transactions

  /** What stays fixed while the indexer runs. */
  datatype Params = Params(tree: Tree, size: pos, confirms: nat, checkpoint: nat, checkpointHead: Hash) {
    /** Numbers of the first and last block of a section. */
    function First(section: nat): (r: nat)
      ensures section > 0 ==> r >= size
    {
      FirstGrows(section, size);
      section * size
    }

    function Last(section: nat): (r: nat)
      ensures r == First(section) + size - 1
    {
      First(section) + size - 1
    }
  }

  lemma FirstGrows(section: nat, size: pos)
    ensures section * size >= 0 && (section > 0 ==> section * size >= size)
    ensures (section + 1) * size == section * size + size
  {}

  lemma FirstNext(p: Params, section: nat)
    ensures p.First(section + 1) == p.First(section) + p.size
  {
    FirstGrows(section, p.size);
  }

  /** The indexer's progress: sections stored and known, and the recorded section heads. */
  datatype Progress = Progress(stored: nat, known: nat, heads: map<nat, Hash>)

  function HeadOf(x: Progress, section: int): Hash { if section in x.heads then x.heads[section] else ZERO }

  /** setValidSections. */
  function SetValid(x: Progress, sections: nat): Progress {
    x.(stored := sections, heads := map s | s in x.heads && !(sections <= s < x.stored) :: x.heads[s])
  }

  /** verifyLastHead. */
  function Verify(p: Params, x: Progress, canon: Index): Progress
    decreases x.stored
  {
    if x.stored > 0 && x.stored > p.checkpoint && HeadOf(x, x.stored - 1) != Lookup(canon, p.Last(x.stored - 1))
    then Verify(p, SetValid(x, x.stored - 1), canon)
    else x
  }

  /** newHead, for a reorganisation down to `head` or a new head. */
  function NewHead(p: Params, x: Progress, head: nat, reorg: bool, canon: Index): Progress {
    if reorg then
      var sections := (head + 1) / p.size;
      var known := if sections < p.checkpoint then 0 else sections;
      var stored := if sections < p.checkpoint then p.checkpoint else sections;
      var y := x.(known := if known < x.known then known else x.known);
      if stored < y.stored then SetValid(y, stored) else y
    else if head < p.confirms then x
    else
      var full := (head + 1 - p.confirms) / p.size;
      var sections := if full < p.checkpoint then 0 else full;
      if sections <= x.known then x
      else if x.known < p.checkpoint && Lookup(canon, p.Last(p.checkpoint - 1)) != p.checkpointHead then x
      else x.(known := sections)
  }

  /** processSection under way: the section, the head before it, the next number to read,
      the last header read, and whether it has failed. */
  datatype Job = Job(section: nat, oldHead: Hash, next: nat, last: Hash, failed: bool)

  function Start(p: Params, x: Progress): Job {
    Job(x.stored, HeadOf(x, x.stored - 1), p.First(x.stored), HeadOf(x, x.stored - 1), false)
  }

  predicate Complete(p: Params, job: Job) { !job.failed && job.next == p.First(job.section + 1) }

  /** One header read against the canonical index of the moment. */
  function Read(p: Params, job: Job, canon: Index, processed: bool): Job {
    var hash := Lookup(canon, job.next);
    if job.failed || job.next >= p.First(job.section + 1) then job
    else if hash == ZERO || hash !in p.tree || p.tree[hash].number != job.next then job.(failed := true)
    else if p.tree[hash].parent != job.last || !processed then job.(failed := true)
    else job.(next := job.next + 1, last := hash)
  }

  /** The end of an update: record the section, unless the job failed or the section below
      it is no longer the one it started from. */
  function Finish(p: Params, x: Progress, job: Job, committed: bool, canon: Index): Progress {
    if Complete(p, job) && committed && (job.section == 0 || job.oldHead == HeadOf(x, job.section - 1))
    then SetValid(x.(heads := x.heads[job.section := job.last]), job.section + 1)
    else var y := Verify(p, x, canon); y.(known := y.stored)
  }

  // ----- invariant -----

  /** A recorded head ends its section, and the head recorded before it is its ancestor. */
  ghost predicate LinkedAt(p: Params, x: Progress, s: nat)
    requires WellFormed(p.tree)
  {
    s in x.heads ==>
      && s < x.stored && x.heads[s] in p.tree && p.tree[x.heads[s]].number == p.Last(s)
      && (s > 0 && s - 1 in x.heads ==> x.heads[s - 1] == Ancestor(p.tree, x.heads[s], p.First(s) - 1))
  }

  /** The stored section heads form one parent-linked chain without gaps, and none is recorded
      at or above `stored`. */
  ghost predicate Chained(p: Params, x: Progress)
    requires WellFormed(p.tree)
  {
    && (forall s: nat :: LinkedAt(p, x, s))
    && (forall s: nat :: s in x.heads && s + 1 < x.stored ==> s + 1 in x.heads)
    && (forall s: nat :: s < x.stored && (s + 1 >= p.checkpoint || x.stored < p.checkpoint) ==> s in x.heads)
  }

  /** A job in flight has followed parents from the head it started from. */
  ghost predicate OnTrack(p: Params, x: Progress, job: Job)
    requires WellFormed(p.tree)
  {
    var first := p.First(job.section);
    && x.stored <= job.section
    && (job.section > 0 ==> job.oldHead in p.tree && p.tree[job.oldHead].number == first - 1)
    && (!job.failed ==>
          && first <= job.next <= first + p.size
          && (job.next == first ==> job.last == job.oldHead)
          && (job.next > first ==> job.last in p.tree && p.tree[job.last].number == job.next - 1)
          && (job.next > first && job.section > 0 ==> Ancestor(p.tree, job.last, first - 1) == job.oldHead))
  }

  lemma SetValidKeeps(p: Params, x: Progress, sections: nat)
    requires WellFormed(p.tree) && Chained(p, x) && (sections == 0 || p.checkpoint <= sections) && sections <= x.stored
    ensures Chained(p, SetValid(x, sections))
  {
    var y := SetValid(x, sections);
    forall s: nat ensures LinkedAt(p, y, s) {
      assert LinkedAt(p, x, s);
    }
    hide Ancestor, WellFormed;
    forall s: nat | s in y.heads ensures s in x.heads && y.heads[s] == x.heads[s] && s < sections { assert LinkedAt(p, x, s); }
  }

  lemma {:induction false} VerifyKeeps(p: Params, x: Progress, canon: Index)
    requires WellFormed(p.tree) && Chained(p, x)
    ensures var y := Verify(p, x, canon); Chained(p, y) && y.stored <= x.stored
    decreases x.stored
  {
    if x.stored > 0 && x.stored > p.checkpoint && HeadOf(x, x.stored - 1) != Lookup(canon, p.Last(x.stored - 1)) {
      SetValidKeeps(p, x, x.stored - 1);
      VerifyKeeps(p, SetValid(x, x.stored - 1), canon);
    }
  }

  /** The known sections take no part in it. */
  lemma KnownFree(p: Params, x: Progress, known: nat)
    requires WellFormed(p.tree) && Chained(p, x)
    ensures Chained(p, x.(known := known))
  {
    forall s: nat ensures LinkedAt(p, x.(known := known), s) { assert LinkedAt(p, x, s); }
  }

  lemma NewHeadKeeps(p: Params, x: Progress, head: nat, reorg: bool, canon: Index)
    requires WellFormed(p.tree) && Chained(p, x)
    ensures var y := NewHead(p, x, head, reorg, canon); Chained(p, y) && y.stored <= x.stored
  {
    hide Chained;
    var y := NewHead(p, x, head, reorg, canon);
    KnownFree(p, x, y.known);
    if reorg {
      var sections := (head + 1) / p.size;
      var stored := if sections < p.checkpoint then p.checkpoint else sections;
      if stored < x.stored { SetValidKeeps(p, x.(known := y.known), stored); }
    }
  }

  lemma ReadKeeps(p: Params, x: Progress, job: Job, canon: Index, processed: bool)
    requires WellFormed(p.tree) && OnTrack(p, x, job)
    ensures OnTrack(p, x, Read(p, job, canon, processed))
  {
    hide Params.First, WellFormed, Ancestor;
    FirstNext(p, job.section);
    ZeroIsNoBlock(p);
    var r := Read(p, job, canon, processed);
    if r.failed || r == job {
      return;
    }
    var first := p.First(job.section);
    if job.section > 0 {
      AncestorBelow(p.tree, r.last, first - 1);
      if job.next == first { AncestorSelf(p.tree, job.last); }
    }
  }

  lemma StartOnTrack(p: Params, x: Progress)
    requires WellFormed(p.tree) && Chained(p, x)
    ensures OnTrack(p, x, Start(p, x))
  {
    hide Params.First, Ancestor;
    if x.stored > 0 {
      FirstNext(p, x.stored - 1);
      assert LinkedAt(p, x, x.stored - 1);
    }
  }

  lemma FinishKeeps(p: Params, x: Progress, job: Job, committed: bool, canon: Index)
    requires WellFormed(p.tree) && Chained(p, x) && OnTrack(p, x, job)
    ensures Chained(p, Finish(p, x, job, committed, canon))
  {
    hide Chained, OnTrack, Complete, HeadOf, SetValid, Verify, WellFormed;
    if Complete(p, job) && committed && (job.section == 0 || job.oldHead == HeadOf(x, job.section - 1)) {
      RecordKeeps(p, x, job);
    } else {
      VerifyKeeps(p, x, canon);
      KnownFree(p, Verify(p, x, canon), Verify(p, x, canon).stored);
    }
  }

  lemma RecordKeeps(p: Params, x: Progress, job: Job)
    requires WellFormed(p.tree) && Chained(p, x) && OnTrack(p, x, job) && Complete(p, job)
    requires job.section == 0 || job.oldHead == HeadOf(x, job.section - 1)
    ensures Chained(p, SetValid(x.(heads := x.heads[job.section := job.last]), job.section + 1))
  {
    hide Params.First, Ancestor, WellFormed;
    var k := job.section;
    var y := SetValid(x.(heads := x.heads[k := job.last]), k + 1);
    FirstNext(p, k);
    ZeroIsNoBlock(p);
    if k > 0 { assert LinkedAt(p, x, k - 1); }
    assert x.stored == k;
    forall s: nat ensures s in y.heads <==> s in x.heads || s == k { assert LinkedAt(p, x, s); }
    forall s: nat ensures LinkedAt(p, y, s) { assert LinkedAt(p, x, s); }
  }

  lemma ZeroIsNoBlock(p: Params)
    requires WellFormed(p.tree)
    ensures ZERO !in p.tree
  {}

  // ----- interleavings -----

  /** The indexer among its surroundings: the chain's index moves on its own. */
  datatype World = World(x: Progress, canon: Index, job: Option<Job>)

  /** Every step takes the lock once, or is one read without it. */
  datatype Step =
    | ChainMoves(canon: Index)
    | Notice(head: nat, reorg: bool)
    | Query
    | BeginUpdate
    | ResetFails
    | ReadHeader(processed: bool)
    | EndUpdate(committed: bool)

  function Next(p: Params, w: World, step: Step): World {
    match step
    case ChainMoves(canon) => w.(canon := canon)
    case Notice(head, reorg) => w.(x := NewHead(p, w.x, head, reorg, w.canon))
    case Query => w.(x := Verify(p, w.x, w.canon))
    case BeginUpdate =>
      if w.job.Some? || w.x.known <= w.x.stored then w
      else var x := Verify(p, w.x, w.canon); w.(x := x, job := Some(Start(p, x)))
    case ResetFails =>
      if w.job.None? || w.job.value.failed || w.job.value.next != p.First(w.job.value.section) then w
      else w.(x := SetValid(w.x, 0), job := Some(w.job.value.(failed := true)))
    case ReadHeader(processed) =>
      if w.job.None? then w else w.(job := Some(Read(p, w.job.value, w.canon, processed)))
    case EndUpdate(committed) =>
      if w.job.None? || !(w.job.value.failed || Complete(p, w.job.value)) then w
      else w.(x := Finish(p, w.x, w.job.value, committed, w.canon), job := None)
  }

  function Run(p: Params, w: World, steps: seq<Step>): World
    decreases |steps|
  {
    if steps == [] then w else Run(p, Next(p, w, steps[0]), steps[1..])
  }

  ghost predicate Inv(p: Params, w: World)
    requires WellFormed(p.tree)
  {
    Chained(p, w.x) && (w.job.Some? ==> OnTrack(p, w.x, w.job.value))
  }

  lemma StepKeeps(p: Params, w: World, step: Step)
    requires WellFormed(p.tree) && Inv(p, w)
    ensures Inv(p, Next(p, w, step))
  {
    hide Chained, LinkedAt, WellFormed, Verify, NewHead, Finish, Read, Start;
    match step
    case ChainMoves(canon) =>
    case Notice(head, reorg) => NewHeadKeeps(p, w.x, head, reorg, w.canon);
    case Query => VerifyKeeps(p, w.x, w.canon);
    case BeginUpdate =>
      VerifyKeeps(p, w.x, w.canon);
      StartOnTrack(p, Verify(p, w.x, w.canon));
    case ResetFails => SetValidKeeps(p, w.x, 0);
    case ReadHeader(processed) => if w.job.Some? { ReadKeeps(p, w.x, w.job.value, w.canon, processed); }
    case EndUpdate(committed) => if w.job.Some? { FinishKeeps(p, w.x, w.job.value, committed, w.canon); }
  }

  /** Whatever the interleaving of section processing with reorganisations, notices and
      queries, the stored section heads stay one parent-linked chain. */
  lemma {:induction false} EveryRunIsChained(p: Params, w: World, steps: seq<Step>)
    requires WellFormed(p.tree) && Inv(p, w)
    ensures Inv(p, Run(p, w, steps))
    decreases |steps|
  {
    hide Inv, WellFormed;
    if steps != [] {
      StepKeeps(p, w, steps[0]);
      EveryRunIsChained(p, Next(p, w, steps[0]), steps[1..]);
    }
  }

  /** A new indexer, or one that was given a checkpoint. */
  lemma Beginnings(p: Params, canon: Index, known: nat)
    requires WellFormed(p.tree)
    requires p.checkpoint > 0 ==> p.checkpointHead in p.tree && p.tree[p.checkpointHead].number == p.Last(p.checkpoint - 1)
    ensures p.checkpoint == 0 ==> Inv(p, World(Progress(0, known, map[]), canon, None))
    ensures p.checkpoint > 0 ==> Inv(p, World(Progress(p.checkpoint, known, map[p.checkpoint - 1 := p.checkpointHead]), canon, None))
  {
    hide Params.First, Ancestor, WellFormed;
  }

  /** One pass of processSection's loop, each read against the index of its own moment. */
  function ReadAll(p: Params, job: Job, views: seq<(Index, bool)>): Job
    decreases |views|
  {
    if views == [] then job else ReadAll(p, Read(p, job, views[0].0, views[0].1), views[1..])
  }

  lemma {:induction false} ReadFailed(p: Params, job: Job, views: seq<(Index, bool)>)
    requires job.failed
    ensures ReadAll(p, job, views) == job
    decreases |views|
  {
    if views != [] { ReadFailed(p, job, views[1..]); }
  }

  class ChainIndexer {
    const p: Params
    var storedSections: nat
    var knownSections: nat
    var heads: map<nat, Hash>

    function State(): Progress reads this { Progress(storedSections, knownSections, heads) }

    constructor (p: Params)
      ensures this.p == p && State() == Progress(0, 0, map[])
    {
      this.p, storedSections, knownSections, heads := p, 0, 0, map[];
    }

    function SectionHead(section: int): Hash reads this { if section in heads then heads[section] else ZERO }

    method SetValidSections(sections: nat)
      modifies this`storedSections, this`heads
      ensures State() == SetValid(old(State()), sections)
    {
      ghost var x := State();
      while storedSections > sections
        invariant storedSections <= x.stored && (storedSections < x.stored ==> storedSections >= sections)
        invariant heads == map s | s in x.heads && !(storedSections <= s < x.stored) :: x.heads[s]
      {
        storedSections := storedSections - 1;
        heads := map s | s in heads && s != storedSections :: heads[s];
      }
      storedSections := sections;
    }

    method VerifyLastHead(canon: Index)
      modifies this`storedSections, this`heads
      ensures State() == Verify(p, old(State()), canon)
    {
      while storedSections > 0 && storedSections > p.checkpoint
        invariant Verify(p, State(), canon) == Verify(p, old(State()), canon)
        invariant knownSections == old(knownSections)
        decreases storedSections
      {
        if SectionHead(storedSections - 1) == Lookup(canon, p.Last(storedSections - 1)) {
          return;
        }
        SetValidSections(storedSections - 1);
      }
    }

    method OnNewHead(head: nat, reorg: bool, canon: Index)
      modifies this
      ensures State() == NewHead(p, old(State()), head, reorg, canon)
    {
      if reorg {
        var known := (head + 1) / p.size;
        var stored := known;
        if known < p.checkpoint {
          known := 0;
        }
        if stored < p.checkpoint {
          stored := p.checkpoint;
        }
        if known < knownSections {
          knownSections := known;
        }
        if stored < storedSections {
          SetValidSections(stored);
        }
        return;
      }
      if head >= p.confirms {
        var sections := (head + 1 - p.confirms) / p.size;
        if sections < p.checkpoint {
          sections := 0;
        }
        if sections > knownSections {
          if knownSections < p.checkpoint && Lookup(canon, p.Last(p.checkpoint - 1)) != p.checkpointHead {
            return;
          }
          knownSections := sections;
        }
      }
    }

    /** The first locked part of an update. */
    method Begin(canon: Index) returns (job: Option<Job>)
      modifies this
      ensures job.Some? <==> old(knownSections > storedSections)
      ensures State() == if job.Some? then Verify(p, old(State()), canon) else old(State())
      ensures job.Some? ==> job.value == Start(p, State())
    {
      if knownSections <= storedSections {
        return None;
      }
      VerifyLastHead(canon);
      var section := storedSections;
      var oldHead := ZERO;
      if section > 0 {
        oldHead := SectionHead(section - 1);
      }
      assert HeadOf(State(), -1) == ZERO;
      return Some(Job(section, oldHead, p.First(section), oldHead, false));
    }

    /** processSection, with the lock released: it fails unless every header read continues
        the one before it. */
    method ProcessSection(section: nat, oldHead: Hash, views: seq<(Index, bool)>, resetOk: bool, committed: bool)
      returns (newHead: Option<Hash>, ghost job: Job)
      requires |views| == p.size
      modifies this`storedSections, this`heads
      ensures State() == if resetOk then old(State()) else SetValid(old(State()), 0)
      ensures job == (if resetOk then ReadAll(p, Job(section, oldHead, p.First(section), oldHead, false), views)
                      else Job(section, oldHead, p.First(section), oldHead, true))
      ensures newHead.Some? <==> Complete(p, job) && committed
      ensures newHead.Some? ==> newHead.value == job.last
    {
      hide Params.First;
      var start := p.First(section);
      FirstNext(p, section);
      if !resetOk {
        SetValidSections(0);
        return None, Job(section, oldHead, start, oldHead, true);
      }
      var lastHead := oldHead;
      ghost var now := Job(section, oldHead, start, oldHead, false);
      job := ReadAll(p, now, views);
      for i := 0 to |views|
        invariant State() == old(State())
        invariant now == Job(section, oldHead, start + i, lastHead, false)
        invariant ReadAll(p, now, views[i..]) == job
      {
        var number := start + i;
        var hash := Lookup(views[i].0, number);
        assert views[i..][1..] == views[i + 1..];
        now := Read(p, now, views[i].0, views[i].1);
        if now.failed { ReadFailed(p, now, views[i + 1..]); }
        if hash == ZERO {
          return None, job;
        }
        if hash !in p.tree || p.tree[hash].number != number {
          return None, job;
        }
        if p.tree[hash].parent != lastHead {
          return None, job;
        }
        if !views[i].1 {
          return None, job;
        }
        lastHead := hash;
      }
      if !committed {
        return None, job;
      }
      return Some(lastHead), job;
    }

    /** The second locked part: whatever happened to the stored sections meanwhile, the new
        one is recorded only on top of the head it started from. */
    method End(section: nat, oldHead: Hash, newHead: Option<Hash>, ghost job: Job, ghost committed: bool, canon: Index)
      requires job.section == section && job.oldHead == oldHead
      requires newHead.Some? <==> Complete(p, job) && committed
      requires newHead.Some? ==> newHead.value == job.last
      modifies this
      ensures State() == Finish(p, old(State()), job, committed, canon)
    {
      if newHead.Some? && (section == 0 || oldHead == SectionHead(section - 1)) {
        heads := heads[section := newHead.value];
        SetValidSections(section + 1);
      } else {
        VerifyLastHead(canon);
        knownSections := storedSections;
      }
    }

    /** Sections, after which only canonical sections are reported. */
    method Sections(canon: Index) returns (stored: nat, head: Hash)
      requires WellFormed(p.tree) && Chained(p, State()) && ParentLinked(p.tree, canon)
      modifies this`storedSections, this`heads
      ensures State() == Verify(p, old(State()), canon) && Chained(p, State())
      ensures stored == storedSections && head == HeadOf(State(), stored - 1)
      ensures stored > p.checkpoint ==> forall s: nat :: CanonicalAt(p, State(), canon, s)
    {
      hide Chained, CanonicalAt, ParentLinked;
      VerifyKeeps(p, State(), canon);
      VerifyMakesCanonical(p, State(), canon);
      VerifyLastHead(canon);
      return storedSections, SectionHead(storedSections - 1);
    }
  }

  // ----- what one check buys -----

  /** The index lists a path of the tree. */
  ghost predicate ParentLinked(t: Tree, canon: Index) {
    forall n :: n in canon ==> canon[n] in t && t[canon[n]].number == n && (n > 0 ==> n - 1 in canon && canon[n - 1] == t[canon[n]].parent)
  }

  ghost predicate CanonicalAt(p: Params, x: Progress, canon: Index, s: nat) {
    s in x.heads ==> x.heads[s] == Lookup(canon, p.Last(s))
  }

  lemma LinkedStep(t: Tree, canon: Index, n: nat)
    requires ParentLinked(t, canon) && n in canon
    ensures canon[n] in t && t[canon[n]].number == n && (n > 0 ==> n - 1 in canon && canon[n - 1] == t[canon[n]].parent)
  {}

  lemma {:induction false} LinkedAncestor(t: Tree, canon: Index, n: nat, m: nat)
    requires WellFormed(t) && ParentLinked(t, canon) && n in canon && m <= n
    ensures m in canon && canon[m] == Ancestor(t, canon[n], m)
    decreases n
  {
    LinkedStep(t, canon, n);
    hide Ancestor, WellFormed, ParentLinked;
    if m == n {
      AncestorSelf(t, canon[n]);
    } else {
      AncestorBelow(t, canon[n], m);
      LinkedAncestor(t, canon, n - 1, m);
    }
  }

  lemma {:induction false} AllBelowCanonical(p: Params, x: Progress, canon: Index, s: nat, top: nat)
    requires WellFormed(p.tree) && Chained(p, x) && ParentLinked(p.tree, canon)
    requires s <= top < x.stored && top in x.heads && CanonicalAt(p, x, canon, top)
    ensures CanonicalAt(p, x, canon, s)
    decreases top - s
  {
    hide Params.First, Ancestor, WellFormed, ParentLinked;
    assert LinkedAt(p, x, top);
    if s >= top || s !in x.heads {
      return;
    }
    UpTo(p, x, s, top - 1);
    FirstNext(p, top - 1);
    ZeroIsNoBlock(p);
    LinkedAncestor(p.tree, canon, p.Last(top), p.Last(top - 1));
    AllBelowCanonical(p, x, canon, s, top - 1);
  }

  lemma {:induction false} UpTo(p: Params, x: Progress, s: nat, k: nat)
    requires WellFormed(p.tree) && Chained(p, x) && s in x.heads && s <= k < x.stored
    ensures k in x.heads
    decreases k
  {
    if s < k { UpTo(p, x, s, k - 1); }
  }

  lemma SetValidHeads(x: Progress, sections: nat)
    ensures SetValid(x, sections).stored == sections
    ensures forall s: nat :: s < sections ==> HeadOf(SetValid(x, sections), s) == HeadOf(x, s)
  {}

  /** verifyLastHead compares one head, and yet leaves every recorded section canonical (down
      to the checkpoint it trusts); and what it removes was not. */
  lemma {:induction false} VerifyMakesCanonical(p: Params, x: Progress, canon: Index)
    requires WellFormed(p.tree) && Chained(p, x) && ParentLinked(p.tree, canon)
    ensures var y := Verify(p, x, canon);
      && (y.stored > p.checkpoint ==> forall s: nat :: CanonicalAt(p, y, canon, s))
      && (forall s: nat :: y.stored <= s < x.stored ==> HeadOf(x, s) != Lookup(canon, p.Last(s)))
      && (forall s: nat :: s < y.stored ==> HeadOf(y, s) == HeadOf(x, s))
    decreases x.stored
  {
    hide Params.First, Ancestor, WellFormed, ParentLinked, Chained, CanonicalAt;
    if x.stored == 0 || x.stored <= p.checkpoint {
      return;
    }
    var top := x.stored - 1;
    if HeadOf(x, top) != Lookup(canon, p.Last(top)) {
      SetValidKeeps(p, x, top);
      var y := SetValid(x, top);
      SetValidHeads(x, top);
      hide SetValid, HeadOf;
      VerifyMakesCanonical(p, y, canon);
      VerifyKeeps(p, y, canon);
    } else {
      TopCanonical(p, x, canon);
    }
  }

  lemma TopCanonical(p: Params, x: Progress, canon: Index)
    requires WellFormed(p.tree) && Chained(p, x) && ParentLinked(p.tree, canon) && x.stored > p.checkpoint
    requires HeadOf(x, x.stored - 1) == Lookup(canon, p.Last(x.stored - 1))
    ensures forall s: nat :: CanonicalAt(p, x, canon, s)
  {
    hide Params.First, Ancestor, WellFormed, ParentLinked;
    var top := x.stored - 1;
    assert top in x.heads;
    forall s: nat ensures CanonicalAt(p, x, canon, s) {
      assert LinkedAt(p, x, s);
      if s in x.heads { AllBelowCanonical(p, x, canon, s, top); }
    }
  }

  // ----- progress -----

  lemma {:induction false} VerifyKnown(p: Params, x: Progress, canon: Index)
    ensures Verify(p, x, canon).known == x.known
    decreases x.stored
  {
    if x.stored > 0 && x.stored > p.checkpoint && HeadOf(x, x.stored - 1) != Lookup(canon, p.Last(x.stored - 1)) {
      VerifyKnown(p, SetValid(x, x.stored - 1), canon);
    }
  }

  /** The section below the next one ends on the index, or there is none. */
  ghost predicate Anchored(p: Params, x: Progress, canon: Index) {
    x.stored == 0 || HeadOf(x, x.stored - 1) == Lookup(canon, p.Last(x.stored - 1))
  }

  lemma {:induction false} VerifyAnchors(p: Params, x: Progress, canon: Index)
    ensures Verify(p, x, canon).stored > p.checkpoint ==> Anchored(p, Verify(p, x, canon), canon)
    ensures Anchored(p, x, canon) ==> Verify(p, x, canon) == x
    decreases x.stored
  {
    if x.stored > 0 && x.stored > p.checkpoint && HeadOf(x, x.stored - 1) != Lookup(canon, p.Last(x.stored - 1)) {
      VerifyAnchors(p, SetValid(x, x.stored - 1), canon);
    }
  }

  function Reads(n: nat): seq<Step> { seq(n, i requires 0 <= i < n => ReadHeader(true)) }

  /** An update that reads all headers of a section and commits. */
  function Update(p: Params): seq<Step> { [BeginUpdate] + (Reads(p.size) + [EndUpdate(true)]) }

  lemma {:induction false} RunAppend(p: Params, w: World, xs: seq<Step>, ys: seq<Step>)
    ensures Run(p, w, xs + ys) == Run(p, Run(p, w, xs), ys)
    decreases |xs|
  {
    hide Next;
    if xs == [] {
      assert xs + ys == ys;
    } else {
      assert (xs + ys)[1..] == xs[1..] + ys;
      RunAppend(p, Next(p, w, xs[0]), xs[1..], ys);
    }
  }

  lemma FirstRead(p: Params, w: World, n: nat)
    requires n > 0
    ensures Run(p, w, Reads(n)) == Run(p, Next(p, w, ReadHeader(true)), Reads(n - 1))
  {
    hide Next;
    assert Reads(n)[1..] == Reads(n - 1);
  }

  /** One read on an index that covers the section: it goes on just when the last header is the
      one below on the index. */
  lemma ReadNext(p: Params, job: Job, canon: Index, top: nat)
    requires WellFormed(p.tree) && ParentLinked(p.tree, canon) && top in canon && job.next <= top
    requires !job.failed && job.next < p.First(job.section + 1)
    ensures job.next in canon
    ensures Read(p, job, canon, true)
      == if job.last == (if job.next == 0 then ZERO else Lookup(canon, job.next - 1))
         then job.(next := job.next + 1, last := canon[job.next]) else job.(failed := true)
  {
    hide Params.First, Ancestor;
    LinkedAncestor(p.tree, canon, top, job.next);
    LinkedStep(p.tree, canon, job.next);
    ZeroIsNoBlock(p);
    hide ParentLinked;
  }

  /** A job that has followed the index so far and has n headers to go. */
  ghost predicate Follows(p: Params, job: Job, canon: Index, n: nat) {
    && !job.failed && job.next + n == p.First(job.section + 1) && (n > 0 ==> job.next + n - 1 in canon)
    && job.last == if job.next == 0 then ZERO else Lookup(canon, job.next - 1)
  }

  function Followed(job: Job, canon: Index, n: nat): Job {
    if n == 0 then job else job.(next := job.next + n, last := Lookup(canon, job.next + n - 1))
  }

  /** Reads that follow the index go through to the section's last header. */
  lemma {:induction false} ReadsFollow(p: Params, w: World, n: nat)
    requires WellFormed(p.tree) && ParentLinked(p.tree, w.canon) && w.job.Some? && Follows(p, w.job.value, w.canon, n)
    ensures Run(p, w, Reads(n)) == w.(job := Some(Followed(w.job.value, w.canon, n)))
    decreases n
  {
    hide Params.First, WellFormed, ParentLinked, Read;
    var job := w.job.value;
    if n > 0 {
      ReadNext(p, job, w.canon, job.next + n - 1);
      FirstRead(p, w, n);
      ReadsFollow(p, w.(job := Some(job.(next := job.next + 1, last := w.canon[job.next]))), n - 1);
    }
  }

  lemma {:induction false} ReadsFail(p: Params, w: World, n: nat)
    requires w.job.Some? && w.job.value.failed
    ensures Run(p, w, Reads(n)) == w
    decreases n
  {
    if n > 0 {
      FirstRead(p, w, n);
      ReadsFail(p, w, n - 1);
    }
  }

  /** After an update without disturbance the indexer has recorded the next section, with the
      head the index has for it, and still knows all the sections it knew; unless the section
      below is a checkpointed one that is off the index, and then it gives up until the next
      notice. Above the checkpoint it never is. */
  lemma SectionRecorded(p: Params, w: World)
    requires WellFormed(p.tree) && ParentLinked(p.tree, w.canon) && Chained(p, w.x) && w.job.None? && w.x.known > w.x.stored
    requires p.Last(Verify(p, w.x, w.canon).stored) in w.canon
    ensures var y, r := Verify(p, w.x, w.canon), Run(p, w, Update(p));
      && (y.stored == 0 || y.stored > p.checkpoint ==> Anchored(p, y, w.canon))
      && r.job.None? && r.canon == w.canon
      && r.x == (if Anchored(p, y, w.canon)
                 then Progress(y.stored + 1, w.x.known, y.heads[y.stored := w.canon[p.Last(y.stored)]])
                 else Progress(y.stored, y.stored, y.heads))
  {
    hide Params.First, Chained, Ancestor, WellFormed, ParentLinked, Verify;
    var y := Verify(p, w.x, w.canon);
    VerifyKnown(p, w.x, w.canon);
    VerifyAnchors(p, w.x, w.canon);
    VerifyKeeps(p, w.x, w.canon);
    var w1 := World(y, w.canon, Some(Start(p, y)));
    var steps := Reads(p.size) + [EndUpdate(true)];
    assert Update(p)[0] == BeginUpdate && Update(p)[1..] == steps;
    assert Next(p, w, BeginUpdate) == w1;
    RunAppend(p, w1, Reads(p.size), [EndUpdate(true)]);
    var w2 := Run(p, w1, Reads(p.size));
    assert Run(p, w2, [EndUpdate(true)]) == Next(p, w2, EndUpdate(true)) by { LastStep(p, w2, EndUpdate(true)); }
    if Anchored(p, y, w.canon) {
      SectionRead(p, w1);
      SectionFinished(p, y, w2.job.value, w.canon);
    } else {
      SectionRefused(p, w1);
      VerifyTwice(p, w.x, w.canon);
    }
  }

  lemma LastStep(p: Params, w: World, step: Step)
    ensures Run(p, w, [step]) == Next(p, w, step)
  {
    hide Next;
    assert [step][1..] == [];
  }

  lemma SectionRead(p: Params, w: World)
    requires WellFormed(p.tree) && ParentLinked(p.tree, w.canon) && w.job == Some(Start(p, w.x))
    requires Anchored(p, w.x, w.canon) && p.Last(w.x.stored) in w.canon
    ensures var k := w.x.stored;
      Run(p, w, Reads(p.size)) == w.(job := Some(Job(k, HeadOf(w.x, k - 1), p.First(k + 1), w.canon[p.Last(k)], false)))
  {
    hide Params.First, ParentLinked, WellFormed;
    var k := w.x.stored;
    FirstNext(p, k);
    if k > 0 { FirstNext(p, k - 1); } else { FirstOfNone(p); }
    ReadsFollow(p, w, p.size);
  }

  lemma FirstOfNone(p: Params)
    ensures p.First(0) == 0
  {}

  lemma SectionFinished(p: Params, y: Progress, job: Job, canon: Index)
    requires WellFormed(p.tree) && Chained(p, y)
    requires !job.failed && job.section == y.stored && job.oldHead == HeadOf(y, y.stored - 1) && job.next == p.First(y.stored + 1)
    ensures Finish(p, y, job, true, canon) == Progress(y.stored + 1, y.known, y.heads[y.stored := job.last])
  {
    hide Params.First, WellFormed, Ancestor, Verify;
    forall s: nat | s in y.heads ensures s < y.stored { assert LinkedAt(p, y, s); }
    hide Chained;
    var h := y.heads[y.stored := job.last];
    assert (map s | s in h && !(y.stored + 1 <= s < y.stored) :: h[s]) == h;
  }

  /** The first read of a section that does not continue the one below. */
  lemma SectionRefused(p: Params, w: World)
    requires WellFormed(p.tree) && ParentLinked(p.tree, w.canon) && w.job == Some(Start(p, w.x))
    requires !Anchored(p, w.x, w.canon) && p.Last(w.x.stored) in w.canon
    ensures Run(p, w, Reads(p.size)) == w.(job := Some(Start(p, w.x).(failed := true)))
  {
    hide Params.First, WellFormed, ParentLinked, Read;
    var k := w.x.stored;
    FirstNext(p, k);
    FirstNext(p, k - 1);
    ReadNext(p, Start(p, w.x), w.canon, p.Last(k));
    FirstRead(p, w, p.size);
    ReadsFail(p, w.(job := Some(Start(p, w.x).(failed := true))), p.size - 1);
  }

  lemma {:induction false} VerifyTwice(p: Params, x: Progress, canon: Index)
    ensures Verify(p, Verify(p, x, canon), canon) == Verify(p, x, canon)
    decreases x.stored
  {
    if x.stored > 0 && x.stored > p.checkpoint && HeadOf(x, x.stored - 1) != Lookup(canon, p.Last(x.stored - 1)) {
      VerifyTwice(p, SetValid(x, x.stored - 1), canon);
    }
  }

  function Updates(p: Params, n: nat): seq<Step> {
    if n == 0 then [] else Update(p) + Updates(p, n - 1)
  }

  /** As many undisturbed updates as there are sections to do bring the indexer up to all the
      sections it knows, each with the head the index has for it. */
  lemma {:induction false} CatchesUp(p: Params, w: World, n: nat)
    requires WellFormed(p.tree) && ParentLinked(p.tree, w.canon) && Chained(p, w.x) && w.job.None?
    requires w.x.known > w.x.stored && p.Last(w.x.known - 1) in w.canon
    requires Anchored(p, Verify(p, w.x, w.canon), w.canon) && n == w.x.known - Verify(p, w.x, w.canon).stored
    ensures var y, r := Verify(p, w.x, w.canon), Run(p, w, Updates(p, n));
      && r.job.None? && r.canon == w.canon && r.x.stored == r.x.known == w.x.known
      && forall s: nat :: s < w.x.known ==> HeadOf(r.x, s) == if s < y.stored then HeadOf(y, s) else Lookup(w.canon, p.Last(s))
    decreases n
  {
    hide Params.First, Ancestor, WellFormed, ParentLinked, Verify, Chained, Update;
    var y := Verify(p, w.x, w.canon);
    VerifyKeeps(p, w.x, w.canon);
    LastsGrow(p, y.stored, w.x.known - 1);
    LinkedAncestor(p.tree, w.canon, p.Last(w.x.known - 1), p.Last(y.stored));
    SectionRecorded(p, w);
    EveryRunIsChained(p, w, Update(p));
    RunAppend(p, w, Update(p), Updates(p, n - 1));
    var w1 := Run(p, w, Update(p));
    VerifyAnchors(p, w1.x, w.canon);
    if n > 1 { CatchesUp(p, w1, n - 1); }
  }

  lemma LastsGrow(p: Params, a: nat, b: nat)
    requires a <= b
    ensures p.Last(a) <= p.Last(b)
  {
    assert (b - a) * p.size >= 0;
    assert b * p.size == a * p.size + (b - a) * p.size;
  }

  lemma Quotients(n: nat, size: pos, s: nat)
    ensures s < n / size <==> (s + 1) * size <= n
  {
    var q := n / size;
    assert q * size <= n < q * size + size;
    if s < q { assert (q - s - 1) * size >= 0; } else { assert (s + 1 - q) * size >= size; }
  }

  /** Sections that end below a number, and ones that start at it or below. */
  lemma SectionsFit(p: Params, n: nat, s: nat)
    ensures s < n / p.size <==> p.Last(s) < n
    ensures s <= n / p.size <==> p.First(s) <= n
  {
    Quotients(n, p.size, s);
    FirstGrows(s, p.size);
    if s > 0 { Quotients(n, p.size, s - 1); }
  }

  /** A new head makes known just the sections that lie deep enough below it, once that is past
      the checkpoint and the checkpoint is on the chain; and takes none away. */
  lemma NoticeMeans(p: Params, x: Progress, head: nat, canon: Index, s: nat)
    ensures var y := NewHead(p, x, head, false, canon);
      && y.stored == x.stored && y.heads == x.heads
      && (s < y.known <==>
            s < x.known
            || (p.Last(s) + p.confirms <= head && p.First(p.checkpoint) + p.confirms <= head + 1
                && (x.known >= p.checkpoint || Lookup(canon, p.Last(p.checkpoint - 1)) == p.checkpointHead)))
  {
    if head >= p.confirms {
      SectionsFit(p, head + 1 - p.confirms, s);
      SectionsFit(p, head + 1 - p.confirms, p.checkpoint);
    }
    hide Params.First, Lookup;
  }

  /** A reorganisation down to a head leaves just the sections that end at or below it; stored
      sections below the checkpoint stay. */
  lemma ReorgMeans(p: Params, x: Progress, head: nat, canon: Index, s: nat)
    ensures var y := NewHead(p, x, head, true, canon);
      && (s < y.known <==> s < x.known && p.Last(s) <= head && p.First(p.checkpoint) <= head + 1)
      && (s < y.stored <==> s < x.stored && (p.Last(s) <= head || s < p.checkpoint))
      && (s < y.stored ==> HeadOf(y, s) == HeadOf(x, s))
  {
    SectionsFit(p, head + 1, s);
    SectionsFit(p, head + 1, p.checkpoint);
    hide Params.First;
  }
}
