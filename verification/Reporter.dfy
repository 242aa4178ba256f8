/** The finalization reporter: retries, checkpoint persistence and held-back
    acknowledgements, driving the two-phase ledger. */
module Reporter {
  import opened Prelude
  import opened StateChanges
  import opened SnapshotStore
  import opened BlockTree
  import opened Persistence
  import Ledger

  const MAX_ATTEMPTS: nat := 3

  datatype FinalizationError =
    | ExecutionFailed
    | RootComputationFailed
    | StateRootMismatch
    | PersistTaskFailed
    | PersistFailed

  predicate IsRetryable(e: FinalizationError) {
    e != StateRootMismatch
  }

  predicate IsCheckpoint(interval: nat, height: nat) {
    interval <= 1 || height % interval == 0
  }

  /** The acknowledgements released so far and those held back. */
  datatype Acks = Acks(released: seq<nat>, pending: seq<nat>)

  function Acknowledged(q: Acks, interval: nat, height: nat): (r: Acks) {
    if IsCheckpoint(interval, height) then Acks(q.released + q.pending + [height], [])
    else Acks(q.released, q.pending + [height])
  }

  /** Whether attempt `k` ends the retries. */
  predicate Settles(outcome: Result<(), FinalizationError>, k: nat) {
    outcome.Ok? || !IsRetryable(outcome.error) || k + 1 >= MAX_ATTEMPTS
  }

  class FinalizedReporter {
    const interval: nat
    var pending: seq<nat>
    var released: seq<nat>

    constructor (checkpointInterval: nat)
      ensures interval > 0 && (checkpointInterval > 0 ==> interval == checkpointInterval)
      ensures pending == [] && released == []
    {
      interval := if checkpointInterval == 0 then 1 else checkpointInterval;
      pending, released := [], [];
    }

    method AcknowledgeCheckpoint(height: nat)
      modifies this
      ensures Acks(released, pending) == Acknowledged(old(Acks(released, pending)), interval, height)
    {
      if interval <= 1 || height % interval == 0 {
        var taken := pending;
        pending := [];
        for i := 0 to |taken|
          invariant released == old(released) + taken[..i] && pending == []
        {
          released := released + [taken[i]];
          assert taken[..i + 1] == taken[..i] + [taken[i]];
        }
        assert taken[..|taken|] == taken;
        released := released + [height];
      } else {
        pending := pending + [height];
      }
    }
  }

  /** Retry until an attempt succeeds, fails for good, or was the last one; `outcomes`
      gives what each attempt will come to. */
  method FinalizeWithRetry(outcomes: nat -> Result<(), FinalizationError>) returns (r: Result<(), FinalizationError>, tried: nat)
    ensures 1 <= tried <= MAX_ATTEMPTS
    ensures r == outcomes(tried - 1) && Settles(r, tried - 1)
    ensures forall k :: 0 <= k < tried - 1 ==> !Settles(outcomes(k), k)
  {
    for attempt := 0 to MAX_ATTEMPTS
      invariant attempt < MAX_ATTEMPTS
      invariant forall k :: 0 <= k < attempt ==> !Settles(outcomes(k), k)
    {
      var outcome := outcomes(attempt);
      if outcome.Ok? {
        return outcome, attempt + 1;
      } else if !(IsRetryable(outcome.error) && attempt < MAX_ATTEMPTS - 1) {
        return outcome, attempt + 1;
      }
    }
    assert false;
  }

  // ----- the reporter as a state machine over the ledger -----

  /** The finalized chain: `block(k)` is the k-th block above the ledger's genesis block,
      which has height `first`. */
  datatype Chain = Chain(tree: Tree, block: nat -> Digest, first: nat, interval: nat)

  ghost predicate ChainOk(c: Chain) {
    && WellFormed(c.tree)
    && c.block(0) == c.tree.genesis
    && forall k: nat :: k > 0 ==> c.block(k) != c.tree.genesis && c.tree.parent(c.block(k)) == c.block(k - 1)
  }

  datatype Phase =
    | Waiting
    | Attempting(attempt: nat)
    | Persisting(attempt: nat, task: nat)
    | Aborted

  /** `next` is the position of the block being finalized; `died` says whether a persist
      task was ever lost in flight. */
  datatype Finalizer = Finalizer(ledger: Persistence.State, next: nat, phase: Phase, acks: Acks, died: bool)

  datatype Step =
    | Elsewhere(step: Persistence.Step)
    | Take
    | Fails(error: FinalizationError)
    | Executed(task: nat)
    | Commits(ok: bool)
    | Returns
    | Dies

  ghost function Failed(s: Finalizer, attempt: nat, e: FinalizationError): (r: Finalizer) {
    s.(phase := if Settles(Err(e), attempt) then Aborted else Attempting(attempt + 1))
  }

  ghost function Succeeded(c: Chain, s: Finalizer): (r: Finalizer) {
    s.(phase := Waiting, next := s.next + 1, acks := Acknowledged(s.acks, c.interval, c.first + s.next))
  }

  /** The block has its snapshot; persist it when it is a checkpoint. */
  ghost function AfterExecuted(c: Chain, s: Finalizer, i: nat): (r: Finalizer)
    requires s.phase.Attempting?
  {
    if !IsCheckpoint(c.interval, c.first + s.next) then Succeeded(c, s)
    else
      var d := c.block(s.next);
      match Ledger.Begin(s.ledger.store, c.tree.height, d).1
      case Idle => Succeeded(c, s)
      case Missing(_) => Failed(s, s.phase.attempt, PersistFailed)
      case Started(_, _) =>
        s.(ledger := Persistence.Next(c.tree, s.ledger, Begin(i, d)), phase := Persisting(s.phase.attempt, i))
  }

  /** Only the reporter persists; other tasks execute and insert blocks. */
  predicate IsExecution(step: Persistence.Step) {
    step.Capture? || step.ComputeRoot? || step.Insert?
  }

  ghost function Next(c: Chain, s: Finalizer, step: Step): (r: Finalizer) {
    match step
    case Elsewhere(x) =>
      if IsExecution(x) then s.(ledger := Persistence.Next(c.tree, s.ledger, x)) else s
    case Take => if s.phase.Waiting? then s.(phase := Attempting(0)) else s
    case Fails(e) =>
      if s.phase.Attempting? then Failed(s, s.phase.attempt, e) else s
    case Executed(i) =>
      if s.phase.Attempting? && i !in s.ledger.tasks && Known(s.ledger.store, c.block(s.next)) then
        AfterExecuted(c, s, i)
      else s
    case Commits(ok) =>
      if s.phase.Persisting? then s.(ledger := Persistence.Next(c.tree, s.ledger, Commit(s.phase.task, ok))) else s
    case Returns =>
      if s.phase.Persisting? && s.phase.task in s.ledger.tasks && s.ledger.tasks[s.phase.task].stage != InFlight then
        var t := s.(ledger := Persistence.Next(c.tree, s.ledger, Finish(s.phase.task)));
        if s.ledger.tasks[s.phase.task].stage == Committed then Succeeded(c, t)
        else Failed(t, s.phase.attempt, PersistFailed)
      else s
    case Dies =>
      if s.phase.Persisting? then Failed(s, s.phase.attempt, PersistTaskFailed).(died := true) else s
  }

  ghost function Run(c: Chain, s: Finalizer, steps: seq<Step>): (r: Finalizer) {
    if steps == [] then s else Next(c, Run(c, s, steps[..|steps| - 1]), steps[|steps| - 1])
  }

  ghost function Initial(c: Chain, w: World, root: Root, retained: nat): (s: Finalizer) {
    Finalizer(Persistence.Initial(c.tree, w, root, retained), 1, Waiting, Acks([], []), false)
  }

  // ----- acknowledgements -----

  /** Heights `first + 1 .. first + n - 1`, in order. */
  ghost function Heights(c: Chain, n: nat): (r: seq<nat>)
    requires n > 0
  {
    seq(n - 1, i requires 0 <= i < n - 1 => HeightAt(c, i + 1))
  }

  ghost function HeightAt(c: Chain, k: nat): (r: nat) {
    c.first + k
  }

  /** Every finished block is released or pending, once and in height order, and no
      checkpoint is pending. */
  ghost predicate AcksOk(c: Chain, s: Finalizer) {
    && s.next > 0
    && s.acks.released + s.acks.pending == Heights(c, s.next)
    && forall h <- s.acks.pending :: !IsCheckpoint(c.interval, h)
  }

  lemma SucceededAcks(c: Chain, s: Finalizer)
    requires AcksOk(c, s)
    ensures AcksOk(c, Succeeded(c, s))
  {
    var h := c.first + s.next;
    var q, r := s.acks, Acknowledged(s.acks, c.interval, h);
    assert Heights(c, s.next + 1) == Heights(c, s.next) + [h];
    assert r.released + r.pending == q.released + q.pending + [h];
  }

  /** Between two checkpoints there are fewer than `interval` heights. */
  lemma PendingBound(c: Chain, s: Finalizer)
    requires AcksOk(c, s) && c.interval > 0
    ensures |s.acks.pending| < c.interval
  {
    var k := NextMultiple(c.first + 1 + |s.acks.released|, c.interval);
    PendingAt(c, s, k);
  }

  lemma PendingAt(c: Chain, s: Finalizer, k: nat)
    requires AcksOk(c, s)
    ensures k < |s.acks.pending| ==> !IsCheckpoint(c.interval, c.first + 1 + |s.acks.released| + k)
  {
    var p, n := s.acks.pending, |s.acks.released|;
    if k < |p| {
      assert p[k] == (s.acks.released + p)[n + k] == HeightAt(c, n + k + 1);
      assert p[k] in p;
    }
  }

  lemma NextMultiple(h: nat, interval: nat) returns (k: nat)
    requires interval > 0
    ensures k < interval && (h + k) % interval == 0
  {
    var q, m := h / interval, h % interval;
    if m == 0 {
      k := 0;
    } else {
      k := interval - m;
      assert h + k == (q + 1) * interval;
      MultipleOf(q + 1, interval);
    }
  }

  lemma MultipleOf(q: nat, b: nat)
    requires b > 0
    ensures (q * b) % b == 0
  {
    var y := q * b;
    var d := y / b;
    assert y == d * b + y % b;
    assert q * b < (d + 1) * b && d * b < (q + 1) * b;
    MulLt(q, d + 1, b);
    MulLt(d, q + 1, b);
  }

  // ----- what is acknowledged is persisted -----

  /** No persist task was lost: the only task is the one the reporter waits for. */
  ghost predicate TasksTracked(s: Finalizer) {
    if s.phase.Persisting? then s.ledger.tasks.Keys == {s.phase.task} else s.ledger.tasks == map[]
  }

  ghost predicate ReleasedPersisted(c: Chain, s: Finalizer) {
    forall k: nat :: 0 < k <= |s.acks.released| ==> c.block(k) in s.ledger.store.persisted
  }

  ghost predicate TargetOk(c: Chain, s: Finalizer) {
    s.phase.Persisting? && s.phase.task in s.ledger.tasks ==>
      var chain := s.ledger.tasks[s.phase.task].chain;
      chain != [] && chain[|chain| - 1] == c.block(s.next)
  }

  /** No released block is still marked in flight. */
  ghost predicate NoneMarked(c: Chain, s: Finalizer) {
    forall k: nat :: 0 < k <= |s.acks.released| ==> c.block(k) !in s.ledger.store.persisting
  }

  ghost predicate Justified(c: Chain, s: Finalizer) {
    NoneMarked(c, s) || s.phase.Persisting? ==> ReleasedPersisted(c, s)
  }

  ghost predicate Control(c: Chain, s: Finalizer) {
    && AcksOk(c, s)
    && TargetOk(c, s)
    && Justified(c, s)
    && (!s.died ==> TasksTracked(s))
  }

  ghost predicate Safe(c: Chain, s: Finalizer) {
    Inv(c.tree, s.ledger) && Control(c, s)
  }

  /** The ancestors of a persisted block on the finalized chain are persisted. */
  lemma {:induction false} ChainPersisted(c: Chain, s: Store, n: nat, k: nat)
    requires ChainOk(c) && PersistedClosed(c.tree, s) && k <= n && c.block(n) in s.persisted
    ensures c.block(k) in s.persisted
  {
    if k < n {
      assert c.tree.parent(c.block(n)) == c.block(n - 1);
      ChainPersisted(c, s, n - 1, k);
    }
  }

  /** The unpersisted chain of a finalized block is made of the unpersisted blocks up to
      it. */
  lemma {:induction false} ChainBlocks(c: Chain, s: Store, n: nat)
    requires ChainOk(c) && StoreOk(c.tree, s) && Unpersisted(s, c.tree.height, c.block(n)).Ok?
    ensures var chain := Unpersisted(s, c.tree.height, c.block(n)).value;
      && (forall k: nat :: k <= n ==> c.block(k) in s.persisted || c.block(k) in chain)
      && (forall b <- chain :: IsBlock(c, b, n))
  {
    var d := c.block(n);
    if d in s.persisted {
      forall k: nat | k <= n ensures c.block(k) in s.persisted {
        ChainPersisted(c, s, n, k);
      }
    } else {
      assert SnapshotOk(c.tree, s, d);
      assert n > 0 && c.tree.parent(d) == c.block(n - 1);
      ChainBlocks(c, s, n - 1);
      assert IsBlock(c, d, n) by { assert c.block(n) == d; }
      var init := Unpersisted(s, c.tree.height, c.block(n - 1)).value;
      forall b <- init ensures IsBlock(c, b, n) {
        var k: nat :| 0 < k <= n - 1 && c.block(k) == b;
      }
    }
  }

  ghost predicate IsBlock(c: Chain, b: Digest, n: nat) {
    exists k: nat :: 0 < k <= n && c.block(k) == b
  }

  ghost predicate SomeMarked(c: Chain, s: Store, n: nat) {
    exists k: nat :: 0 < k <= n && c.block(k) in s.persisting
  }

  /** A success keeps the order when its block is held back or persisted, or when a block
      up to it is marked. */
  lemma SucceededControl(c: Chain, s: Finalizer)
    requires ChainOk(c) && PersistedClosed(c.tree, s.ledger.store) && AcksOk(c, s)
    requires !s.died ==> s.ledger.tasks == map[]
    requires NoneMarked(c, s) ==> ReleasedPersisted(c, s)
    requires IsCheckpoint(c.interval, c.first + s.next) ==>
      c.block(s.next) in s.ledger.store.persisted || SomeMarked(c, s.ledger.store, s.next)
    ensures Control(c, Succeeded(c, s))
  {
    SucceededAcks(c, s);
    var r := Succeeded(c, s);
    assert |s.acks.released + s.acks.pending| == |Heights(c, s.next)|;
    if IsCheckpoint(c.interval, c.first + s.next) && c.block(s.next) in s.ledger.store.persisted {
      forall k: nat | 0 < k <= |r.acks.released| ensures c.block(k) in s.ledger.store.persisted {
        ChainPersisted(c, s.ledger.store, s.next, k);
      }
    }
  }

  /** When a persist reports that there is nothing to do, its block is persisted exactly
      if no block of its chain is still marked in flight. */
  lemma IdlePersistIff(t: Tree, s: Store, d: Digest)
    requires WellFormed(t) && StoreOk(t, s) && Ledger.Begin(s, t.height, d).1.Idle?
    ensures Unpersisted(s, t.height, d).Ok?
    ensures d in s.persisted <==> forall b <- Unpersisted(s, t.height, d).value :: b !in s.persisting
  {
    UnpersistedIsSegment(t, s, d);
  }

  /** What starting a persist changes in the ledger. */
  lemma BeginMarks(t: Tree, s: Persistence.State, i: nat, d: Digest)
    requires WellFormed(t) && StoreOk(t, s.store) && i !in s.tasks
    requires Ledger.Begin(s.store, t.height, d).1.Started?
    ensures var r := AfterBegin(t, s, i, d);
      && r.store.persisted == s.store.persisted && r.tasks.Keys == s.tasks.Keys + {i}
      && r.tasks[i].chain != [] && r.tasks[i].chain[|r.tasks[i].chain| - 1] == d
  {
    UnpersistedIsSegment(t, s.store, d);
  }

  /** A persist that has nothing to do finds its block persisted or a block up to it
      marked. */
  lemma IdleIsJustified(c: Chain, s: Store, n: nat)
    requires ChainOk(c) && StoreOk(c.tree, s) && Ledger.Begin(s, c.tree.height, c.block(n)).1.Idle?
    ensures c.block(n) in s.persisted || SomeMarked(c, s, n)
  {
    IdlePersistIff(c.tree, s, c.block(n));
    ChainBlocks(c, s, n);
    if c.block(n) !in s.persisted {
      var b :| b in Unpersisted(s, c.tree.height, c.block(n)).value && b in s.persisting;
      assert IsBlock(c, b, n);
      var k: nat :| 0 < k <= n && c.block(k) == b;
      assert c.block(k) in s.persisting;
    }
  }

  /** A persist that starts finds no block of the finalized chain marked up to its own. */
  lemma StartedIsUnmarked(c: Chain, s: Persistence.State, n: nat, k: nat)
    requires ChainOk(c) && Inv(c.tree, s) && 0 < k <= n
    requires Ledger.Begin(s.store, c.tree.height, c.block(n)).1.Started?
    ensures c.block(k) !in s.store.persisting
  {
    ChainBlocks(c, s.store, n);
    MarkedIsUnpersisted(c.tree, s, c.block(k));
  }

  lemma MarkedIsUnpersisted(t: Tree, s: Persistence.State, d: Digest)
    requires TasksOk(t, s.store, s.tasks)
    ensures d in s.store.persisting ==> d !in s.store.persisted
  {
    if d in s.store.persisting {
      assert InSomeTask(s.tasks, d);
      var i :| i in s.tasks && d in s.tasks[i].chain;
      assert TaskOk(t, s.store, s.tasks[i]);
    }
  }

  lemma StartedControl(c: Chain, s: Finalizer, i: nat)
    requires ChainOk(c) && StoreOk(c.tree, s.ledger.store) && Control(c, s) && NoneMarked(c, s)
    requires s.phase.Attempting? && i !in s.ledger.tasks
    requires Ledger.Begin(s.ledger.store, c.tree.height, c.block(s.next)).1.Started?
    ensures Control(c, s.(ledger := AfterBegin(c.tree, s.ledger, i, c.block(s.next)), phase := Persisting(s.phase.attempt, i)))
  {
    BeginMarks(c.tree, s.ledger, i, c.block(s.next));
  }

  lemma ExecutedEffect(c: Chain, s: Finalizer, i: nat)
    requires s.phase.Attempting?
    ensures var r, d := AfterExecuted(c, s, i), c.block(s.next);
      var begun := Ledger.Begin(s.ledger.store, c.tree.height, d).1;
      if !IsCheckpoint(c.interval, c.first + s.next) || begun.Idle? then r == Succeeded(c, s)
      else if begun.Missing? then r == Failed(s, s.phase.attempt, PersistFailed)
      else r == s.(ledger := AfterBegin(c.tree, s.ledger, i, d), phase := Persisting(s.phase.attempt, i))
  {
  }

  lemma ExecutedControl(c: Chain, s: Finalizer, r: Finalizer, i: nat)
    requires ChainOk(c) && StoreOk(c.tree, s.ledger.store) && Control(c, s)
    requires s.phase.Attempting? && i !in s.ledger.tasks && r == AfterExecuted(c, s, i)
    requires Ledger.Begin(s.ledger.store, c.tree.height, c.block(s.next)).1.Started? ==> NoneMarked(c, s)
    ensures Control(c, r)
  {
    var begun := Ledger.Begin(s.ledger.store, c.tree.height, c.block(s.next)).1;
    ExecutedEffect(c, s, i);
    if !IsCheckpoint(c.interval, c.first + s.next) {
      SucceededControl(c, s);
    } else if begun.Idle? {
      IdleIsJustified(c, s.ledger.store, s.next);
      SucceededControl(c, s);
    } else if begun.Started? {
      StartedControl(c, s, i);
    }
  }

  lemma ExecutedSafe(c: Chain, s: Finalizer, i: nat)
    requires ChainOk(c) && Safe(c, s) && s.phase.Attempting? && i !in s.ledger.tasks
    ensures Safe(c, AfterExecuted(c, s, i))
  {
    var d := c.block(s.next);
    if Ledger.Begin(s.ledger.store, c.tree.height, d).1.Started? {
      assert |s.acks.released + s.acks.pending| == |Heights(c, s.next)|;
      forall k: nat | 0 < k <= |s.acks.released| ensures c.block(k) !in s.ledger.store.persisting {
        StartedIsUnmarked(c, s.ledger, s.next, k);
      }
    }
    ExecutedControl(c, s, AfterExecuted(c, s, i), i);
    ExecutedEffect(c, s, i);
    BeginKeeps(c.tree, s.ledger, i, d);
  }

  lemma NothingInFlight(t: Tree, s: Persistence.State)
    requires TasksOk(t, s.store, s.tasks) && s.tasks == map[]
    ensures s.store.persisting == {}
  {
    assert forall b <- s.store.persisting :: InSomeTask(s.tasks, b);
  }

  lemma ReturnsControl(c: Chain, s: Finalizer, ledger: Persistence.State)
    requires ChainOk(c) && Control(c, s) && s.phase.Persisting? && s.phase.task in s.ledger.tasks
    requires FinishedTo(s.ledger.store, s.ledger.tasks[s.phase.task], ledger.store)
    requires ledger.tasks == s.ledger.tasks - {s.phase.task} && PersistedClosed(c.tree, ledger.store)
    ensures s.ledger.tasks[s.phase.task].stage == Committed ==> Control(c, Succeeded(c, s.(ledger := ledger)))
    ensures forall a, e :: Control(c, Failed(s.(ledger := ledger), a, e))
  {
    var t := s.(ledger := ledger);
    if !s.died {
      assert ledger.tasks == map[];
    }
    if s.ledger.tasks[s.phase.task].stage == Committed {
      assert c.block(s.next) in ledger.store.persisted;
      SucceededControl(c, t);
    }
  }

  lemma ReturnsEffect(c: Chain, s: Finalizer)
    requires s.phase.Persisting?
    requires s.phase.task in s.ledger.tasks && s.ledger.tasks[s.phase.task].stage != InFlight
    ensures var t := s.(ledger := AfterFinish(s.ledger, s.phase.task));
      Next(c, s, Returns) == if s.ledger.tasks[s.phase.task].stage == Committed then Succeeded(c, t)
        else Failed(t, s.phase.attempt, PersistFailed)
  {
  }

  lemma ReturnsSafe(c: Chain, s: Finalizer)
    requires ChainOk(c) && Safe(c, s) && s.phase.Persisting?
    requires s.phase.task in s.ledger.tasks && s.ledger.tasks[s.phase.task].stage != InFlight
    ensures Safe(c, Next(c, s, Returns))
  {
    var i := s.phase.task;
    var ledger := AfterFinish(s.ledger, i);
    assert FinishedTo(s.ledger.store, s.ledger.tasks[i], ledger.store) && ledger.tasks == s.ledger.tasks - {i} by {
      assert TaskOk(c.tree, s.ledger.store, s.ledger.tasks[i]);
      FinishNext(c.tree, s.ledger, i);
    }
    FinishKeeps(c.tree, s.ledger, i);
    ReturnsControl(c, s, ledger);
    ReturnsEffect(c, s);
  }

  lemma ElsewhereSafe(c: Chain, s: Finalizer, x: Persistence.Step)
    requires ChainOk(c) && Safe(c, s) && IsExecution(x)
    ensures Safe(c, s.(ledger := Persistence.Next(c.tree, s.ledger, x)))
  {
    NextKeeps(c.tree, s.ledger, x);
    ExecutionKeepsMarks(c.tree, s.ledger, x);
  }

  lemma ExecutionKeepsMarks(t: Tree, s: Persistence.State, x: Persistence.Step)
    requires IsExecution(x)
    ensures Persistence.Next(t, s, x).tasks == s.tasks
    ensures Persistence.Next(t, s, x).store.persisted == s.store.persisted
    ensures Persistence.Next(t, s, x).store.persisting == s.store.persisting
  {
  }

  lemma CommitMarks(s: Persistence.State, i: nat, ok: bool)
    ensures var r := AfterCommit(s, i, ok);
      && r.store == s.store && r.tasks.Keys == s.tasks.Keys
      && forall j <- s.tasks :: r.tasks[j].chain == s.tasks[j].chain
  {
  }

  lemma CommitsSafe(c: Chain, s: Finalizer, ok: bool)
    requires ChainOk(c) && Safe(c, s) && s.phase.Persisting?
    ensures Safe(c, Next(c, s, Commits(ok)))
  {
    CommitsInv(c, s, ok);
    CommitsControl(c, s, ok);
  }

  lemma CommitsInv(c: Chain, s: Finalizer, ok: bool)
    requires WellFormed(c.tree) && Inv(c.tree, s.ledger) && s.phase.Persisting?
    ensures Inv(c.tree, Next(c, s, Commits(ok)).ledger)
  {
    var r := Next(c, s, Commits(ok)).ledger;
    assert r == AfterCommit(s.ledger, s.phase.task, ok);
    CommitKeeps(c.tree, s.ledger, s.phase.task, ok);
  }

  lemma CommitsControl(c: Chain, s: Finalizer, ok: bool)
    requires Control(c, s) && s.phase.Persisting?
    ensures Control(c, Next(c, s, Commits(ok)))
  {
    CommitMarks(s.ledger, s.phase.task, ok);
  }

  lemma NextSafe(c: Chain, s: Finalizer, step: Step)
    requires ChainOk(c) && Safe(c, s)
    ensures Safe(c, Next(c, s, step))
  {
    match step
    case Elsewhere(x) =>
      if IsExecution(x) {
        ElsewhereSafe(c, s, x);
      }
    case Executed(i) =>
      if s.phase.Attempting? && i !in s.ledger.tasks && Known(s.ledger.store, c.block(s.next)) {
        ExecutedSafe(c, s, i);
      }
    case Commits(ok) =>
      if s.phase.Persisting? {
        CommitsSafe(c, s, ok);
      }
    case Returns =>
      if s.phase.Persisting? && s.phase.task in s.ledger.tasks && s.ledger.tasks[s.phase.task].stage != InFlight {
        ReturnsSafe(c, s);
      }
    case _ =>
  }

  lemma {:induction false} RunSafe(c: Chain, s: Finalizer, steps: seq<Step>)
    requires ChainOk(c) && Safe(c, s)
    ensures Safe(c, Run(c, s, steps))
  {
    if steps != [] {
      RunSafe(c, s, steps[..|steps| - 1]);
      NextSafe(c, Run(c, s, steps[..|steps| - 1]), steps[|steps| - 1]);
    }
  }

  /** Every released block is persisted exactly when none is still marked in flight. */
  lemma PersistedIffUnmarked(c: Chain, s: Finalizer)
    requires Safe(c, s)
    ensures ReleasedPersisted(c, s) <==> NoneMarked(c, s)
  {
    if ReleasedPersisted(c, s) {
      forall k: nat | 0 < k <= |s.acks.released| ensures c.block(k) !in s.ledger.store.persisting {
        MarkedIsUnpersisted(c.tree, s.ledger, c.block(k));
      }
    }
  }

  /** As long as no persist was lost in flight nothing released is marked. */
  lemma TrackedIsPersisted(c: Chain, s: Finalizer)
    requires Safe(c, s) && !s.died
    ensures ReleasedPersisted(c, s)
  {
    if !s.phase.Persisting? {
      NothingInFlight(c.tree, s.ledger);
    }
  }

  /** An aborted reporter acknowledges nothing more. */
  lemma {:induction false} AbortIsFinal(c: Chain, s: Finalizer, steps: seq<Step>)
    requires s.phase == Aborted
    ensures var r := Run(c, s, steps); r.phase == Aborted && r.acks == s.acks && r.next == s.next
  {
    if steps != [] {
      AbortIsFinal(c, s, steps[..|steps| - 1]);
    }
  }

  /** Acknowledgements are released once each in height order, fewer than the interval are
      pending, and the block under way is not acknowledged. */
  ghost predicate InHeightOrder(c: Chain, s: Finalizer) {
    && s.next > 0 && s.acks.released <= Heights(c, s.next)
    && s.acks.released + s.acks.pending == Heights(c, s.next)
    && |s.acks.pending| < c.interval
    && c.first + s.next !in s.acks.released
  }

  lemma AcksInHeightOrder(c: Chain, s: Finalizer)
    requires AcksOk(c, s) && c.interval > 0
    ensures InHeightOrder(c, s)
  {
    PendingBound(c, s);
    assert forall h <- Heights(c, s.next) :: h < c.first + s.next;
    assert forall h <- s.acks.released :: h in s.acks.released + s.acks.pending;
  }

  /** Checkpoint safety, for every run whatever retries and losses happened:
      acknowledgements are in height order; every released block is persisted exactly when
      no released block is still marked in flight, as is the case when no persist was
      lost; and after an abort nothing more is released. */
  lemma CheckpointSafety(c: Chain, w: World, root: Root, retained: nat, steps: seq<Step>, more: seq<Step>)
    requires ChainOk(c) && c.interval > 0
    ensures var s := Run(c, Initial(c, w, root, retained), steps);
      && InHeightOrder(c, s)
      && (ReleasedPersisted(c, s) <==> NoneMarked(c, s))
      && (!s.died ==> ReleasedPersisted(c, s))
      && (s.phase == Aborted ==> Run(c, s, more).acks == s.acks)
  {
    var s := Run(c, Initial(c, w, root, retained), steps);
    InitialSafe(c, w, root, retained);
    RunSafe(c, Initial(c, w, root, retained), steps);
    SafeStates(c, s);
    if s.phase == Aborted {
      AbortIsFinal(c, s, more);
    }
  }

  lemma SafeStates(c: Chain, s: Finalizer)
    requires Safe(c, s) && c.interval > 0
    ensures InHeightOrder(c, s) && (ReleasedPersisted(c, s) <==> NoneMarked(c, s)) && (!s.died ==> ReleasedPersisted(c, s))
  {
    AcksInHeightOrder(c, s);
    PersistedIffUnmarked(c, s);
    if !s.died {
      TrackedIsPersisted(c, s);
    }
  }

  /** A block that some task has in flight looks finished to another persist. */
  lemma InFlightLooksIdle(t: Tree, s: Store, task: Task, d: Digest)
    requires WellFormed(t) && StoreOk(t, s) && TaskOk(t, s, task) && d in task.chain
    ensures Ledger.Begin(s, t.height, d) == (s, Ledger.Idle) && d !in s.persisted
  {
    ChainComplete(t, s, d);
    UnpersistedIsSegment(t, s, d);
    var chain := Unpersisted(s, t.height, d).value;
    assert chain[|chain| - 1] == d && d in s.persisting;
    assert !Ledger.Free(s, chain);
  }

  ghost predicate ReleasedUnpersisted(c: Chain, s: Finalizer, k: nat) {
    c.first + k in s.acks.released && c.block(k) !in s.ledger.store.persisted
  }

  /** How a released block comes to be marked: in every reachable state in which the
      reporter waits for a commit and has attempts left, losing its persist and retrying
      acknowledges a block that is not marked persisted, and that is not in the database
      either unless the lost persist had already committed. The marks left behind make
      the retry report that there is nothing to do. */
  lemma LostPersistIsAcknowledged(c: Chain, s: Finalizer, j: nat)
    requires ChainOk(c) && Safe(c, s) && s.phase.Persisting? && s.phase.attempt + 1 < MAX_ATTEMPTS
    requires s.phase.task in s.ledger.tasks && j !in s.ledger.tasks
    requires IsCheckpoint(c.interval, c.first + s.next)
    ensures var r := Next(c, Next(c, s, Dies), Executed(j));
      && ReleasedUnpersisted(c, r, s.next)
      && (c.block(s.next) in r.ledger.log <==> s.ledger.tasks[s.phase.task].stage == Committed)
  {
    var task := s.ledger.tasks[s.phase.task];
    assert TaskOk(c.tree, s.ledger.store, task);
    assert c.block(s.next) in task.chain;
    InFlightLooksIdle(c.tree, s.ledger.store, task, c.block(s.next));
    RetryAcknowledges(c, s, j);
    InLogIffCommitted(c.tree, s.ledger, s.phase.task, c.block(s.next));
  }

  lemma RetryAcknowledges(c: Chain, s: Finalizer, j: nat)
    requires s.phase.Persisting? && s.phase.attempt + 1 < MAX_ATTEMPTS && j !in s.ledger.tasks
    requires IsCheckpoint(c.interval, c.first + s.next) && Known(s.ledger.store, c.block(s.next))
    requires Ledger.Begin(s.ledger.store, c.tree.height, c.block(s.next)).1 == Ledger.Idle
    ensures var r := Next(c, Next(c, s, Dies), Executed(j));
      c.first + s.next in r.acks.released && r.ledger == s.ledger
  {
    var died := Next(c, s, Dies);
    assert died == s.(phase := Attempting(s.phase.attempt + 1), died := true);
    assert Next(c, died, Executed(j)) == AfterExecuted(c, died, j) == Succeeded(c, died);
  }

  lemma Extend(c: Chain, s: Finalizer, steps: seq<Step>, step: Step) returns (more: seq<Step>)
    ensures Run(c, s, more) == Next(c, Run(c, s, steps), step)
  {
    more := steps + [step];
    assert more[..|steps|] == steps;
  }

  /** A reporter with nothing in flight starts to persist an unpersisted checkpoint. */
  lemma StartsPersisting(c: Chain, s: Finalizer, i: nat)
    requires ChainOk(c) && Safe(c, s) && s.phase.Attempting? && s.ledger.tasks == map[]
    requires IsCheckpoint(c.interval, c.first + s.next)
    requires Known(s.ledger.store, c.block(s.next)) && c.block(s.next) !in s.ledger.store.persisted
    ensures Next(c, s, Executed(i)) == s.(ledger := AfterBegin(c.tree, s.ledger, i, c.block(s.next)),
      phase := Persisting(s.phase.attempt, i))
    ensures Next(c, s, Executed(i)).ledger.tasks.Keys == {i}
  {
    var store, d := s.ledger.store, c.block(s.next);
    ChainComplete(c.tree, store, d);
    UnpersistedIsSegment(c.tree, store, d);
    NothingInFlight(c.tree, s.ledger);
    ExecutedEffect(c, s, i);
    BeginMarks(c.tree, s.ledger, i, d);
  }

  /** The chain of empty blocks 0, 1, 2, ..., every one a checkpoint. */
  ghost function EmptyChain(): (c: Chain) {
    Chain(
      Tree(0, (d: Digest) => if d == 0 then 0 else d - 1, (d: Digest) => d, (d: Digest) => map[],
        (d: Digest) => {}, (r: Root, cs: ChangeSet) => r),
      (k: nat) => k, 0, 1)
  }

  lemma EmptyChainOk()
    ensures ChainOk(EmptyChain())
  {
  }

  lemma InitialSafe(c: Chain, w: World, root: Root, retained: nat)
    requires ChainOk(c)
    ensures Safe(c, Initial(c, w, root, retained))
  {
    InitialInv(c.tree, w, root, retained);
    assert Heights(c, 1) == [];
  }

  /** Execute and insert block 1. */
  lemma InsertedRun(c: Chain, w: World, root: Root) returns (steps: seq<Step>)
    requires c == EmptyChain()
    ensures var s := Run(c, Initial(c, w, root, 256), steps);
      && s.phase == Waiting && s.next == 1 && s.ledger.tasks == map[]
      && 1 in s.ledger.store.snapshots && s.ledger.store.persisted == {0}
  {
    var s0 := Initial(c, w, root, 256);
    steps := Extend(c, s0, [], Elsewhere(Capture(0, 1)));
    var s1 := Run(c, s0, steps);
    assert s1.ledger == AfterCapture(c.tree, s0.ledger, 0, 1);
    assert 0 in s1.ledger.executions && s1.ledger.store == s0.ledger.store;
    steps := Extend(c, s0, steps, Elsewhere(ComputeRoot(0)));
    var s2 := Run(c, s0, steps);
    assert s2.ledger == AfterComputeRoot(c.tree, s1.ledger, 0);
    assert 0 in s2.ledger.executions && s2.ledger.executions[0].root.Some? && s2.ledger.executions[0].block == 1;
    steps := Extend(c, s0, steps, Elsewhere(Insert(0)));
    assert Run(c, s0, steps).ledger == AfterInsert(c.tree, s2.ledger, 0);
  }

  lemma PersistingRun(c: Chain, w: World, root: Root) returns (steps: seq<Step>)
    requires c == EmptyChain() && ChainOk(c)
    ensures var s := Run(c, Initial(c, w, root, 256), steps);
      Safe(c, s) && s.phase == Persisting(0, 0) && s.next == 1 && s.ledger.tasks.Keys == {0}
  {
    var s0 := Initial(c, w, root, 256);
    InitialSafe(c, w, root, 256);
    steps := InsertedRun(c, w, root);
    steps := Extend(c, s0, steps, Take);
    RunSafe(c, s0, steps);
    StartsPersisting(c, Run(c, s0, steps), 0);
    steps := Extend(c, s0, steps, Executed(0));
    RunSafe(c, s0, steps);
  }

  lemma LostPersistExtends(c: Chain, s0: Finalizer, steps: seq<Step>, s: Finalizer) returns (more: seq<Step>)
    requires ChainOk(c) && s == Run(c, s0, steps) && Safe(c, s) && s.phase == Persisting(0, 0)
    requires s.ledger.tasks.Keys == {0} && IsCheckpoint(c.interval, c.first + s.next)
    ensures ReleasedUnpersisted(c, Run(c, s0, more), s.next)
  {
    LostPersistIsAcknowledged(c, s, 1);
    more := ExtendTwice(c, s0, steps, Dies, Executed(1));
  }

  lemma ExtendTwice(c: Chain, s: Finalizer, steps: seq<Step>, x: Step, y: Step) returns (more: seq<Step>)
    ensures Run(c, s, more) == Next(c, Next(c, Run(c, s, steps), x), y)
  {
    var once := Extend(c, s, steps, x);
    more := Extend(c, s, once, y);
  }

  /** A run that releases block 1 without persisting it. */
  lemma LostPersistRun(c: Chain, w: World, root: Root) returns (steps: seq<Step>)
    requires c == EmptyChain()
    ensures ReleasedUnpersisted(c, Run(c, Initial(c, w, root, 256), steps), 1)
  {
    EmptyChainOk();
    steps := PersistingRun(c, w, root);
    steps := LostPersistExtends(c, Initial(c, w, root, 256), steps, Run(c, Initial(c, w, root, 256), steps));
  }
}
