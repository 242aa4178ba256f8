/** The ledger as a state machine: executions that capture a parent snapshot and insert
    their block, and persist tasks that begin, commit and finish, in any interleaving. */
module Persistence {
  import opened Prelude
  import opened StateChanges
  import opened SnapshotStore
  import opened BlockTree
  import Ledger

  /** An execution holds the parent snapshot it captured, then the root it computed. */
  datatype Execution = Execution(block: Digest, parent: Snapshot, root: Option<Root>)

  datatype Stage = InFlight | Committed | Failed

  datatype Task = Task(chain: seq<Digest>, merged: ChangeSet, stage: Stage)

  /** `base` is the database all overlays share; `log` records what was committed. */
  datatype State = State(
    store: Store,
    base: World,
    tasks: map<nat, Task>,
    executions: map<nat, Execution>,
    log: seq<Digest>)

  datatype Step =
    | Capture(e: nat, block: Digest)
    | ComputeRoot(e: nat)
    | Insert(e: nat)
    | Begin(i: nat, target: Digest)
    | Commit(i: nat, ok: bool)
    | Finish(i: nat)

  ghost function Initial(t: Tree, w: World, root: Root, retained: nat): (s: State) {
    var genesis := Snapshot(None, map[], root, map[], {});
    State(Store(map[t.genesis := genesis], {t.genesis}, {}, [t.genesis], retained), w, map[], map[], [])
  }

  /** An execution takes the snapshot of its block's parent. */
  ghost function AfterCapture(t: Tree, s: State, e: nat, d: Digest): (r: State) {
    if e in s.executions || d == t.genesis || t.parent(d) !in s.store.snapshots then s
    else s.(executions := s.executions[e := Execution(d, s.store.snapshots[t.parent(d)], None)])
  }

  /** It looks the parent root up again, and gives up when the parent is gone. */
  ghost function AfterComputeRoot(t: Tree, s: State, e: nat): (r: State) {
    if e !in s.executions then s
    else
      var x := s.executions[e];
      var p := t.parent(x.block);
      if p !in s.store.snapshots then s.(executions := s.executions - {e})
      else
        var root := RootStep(t, s.store.snapshots[p].root, t.changes(x.block));
        s.(executions := s.executions[e := x.(root := Some(root))])
  }

  ghost function AfterInsert(t: Tree, s: State, e: nat): (r: State) {
    if e !in s.executions || s.executions[e].root.None? then s
    else
      var x := s.executions[e];
      s.(store := s.store.(snapshots := s.store.snapshots[x.block := Executed(t, x)]),
         executions := s.executions - {e})
  }

  ghost function AfterBegin(t: Tree, s: State, i: nat, d: Digest): (r: State) {
    var (store, begun) := Ledger.Begin(s.store, t.height, d);
    if i in s.tasks || !begun.Started? then s
    else s.(store := store, tasks := s.tasks[i := Task(begun.chain, begun.changes, InFlight)])
  }

  ghost function AfterCommit(s: State, i: nat, ok: bool): (r: State) {
    if i !in s.tasks || s.tasks[i].stage != InFlight then s
    else
      var task := s.tasks[i];
      if ok then
        s.(base := Apply(s.base, task.merged), log := s.log + task.chain,
           tasks := s.tasks[i := task.(stage := Committed)])
      else s.(tasks := s.tasks[i := task.(stage := Failed)])
  }

  ghost function AfterFinish(s: State, i: nat): (r: State) {
    if i !in s.tasks || s.tasks[i].stage == InFlight then s
    else
      var store := Ledger.Finish(s.store, s.tasks[i].chain, s.tasks[i].stage == Committed).0;
      s.(store := store, tasks := s.tasks - {i})
  }

  /** A step that is not possible leaves the state alone. */
  ghost function Next(t: Tree, s: State, step: Step): (r: State) {
    match step
    case Capture(e, d) => AfterCapture(t, s, e, d)
    case ComputeRoot(e) => AfterComputeRoot(t, s, e)
    case Insert(e) => AfterInsert(t, s, e)
    case Begin(i, d) => AfterBegin(t, s, i, d)
    case Commit(i, ok) => AfterCommit(s, i, ok)
    case Finish(i) => AfterFinish(s, i)
  }

  /** The snapshot of an executed block: its changes on top of the captured overlay. */
  ghost function Executed(t: Tree, x: Execution): (r: Snapshot)
    requires x.root.Some?
  {
    Snapshot(Some(t.parent(x.block)), Merge(x.parent.overlay, t.changes(x.block)), x.root.value,
      t.changes(x.block), t.txIds(x.block))
  }

  ghost function Run(t: Tree, s: State, steps: seq<Step>): (r: State) {
    if steps == [] then s else Next(t, Run(t, s, steps[..|steps| - 1]), steps[|steps| - 1])
  }

  // ----- the invariant -----

  ghost predicate Known(s: Store, d: Digest) {
    d in s.snapshots || d in s.persisted
  }

  ghost function ParentOf(t: Tree, d: Digest): (r: Option<Digest>) {
    if d == t.genesis then None else Some(t.parent(d))
  }

  ghost predicate PersistedClosed(t: Tree, s: Store) {
    t.genesis in s.persisted && forall d <- s.persisted :: d != t.genesis ==> t.parent(d) in s.persisted
  }

  ghost predicate SnapshotOk(t: Tree, s: Store, d: Digest)
    requires d in s.snapshots
  {
    && s.snapshots[d].parent == ParentOf(t, d)
    && (d !in s.persisted ==> s.snapshots[d].changes == t.changes(d) && Known(s, t.parent(d)))
  }

  ghost predicate StoreOk(t: Tree, s: Store) {
    PersistedClosed(t, s) && forall d <- s.snapshots :: SnapshotOk(t, s, d)
  }

  /** A nonempty unpersisted chain that starts right above a persisted block. */
  ghost predicate Segment(t: Tree, persisted: set<Digest>, chain: seq<Digest>) {
    && chain != []
    && Linked(t, chain)
    && (forall c <- chain :: c !in persisted)
    && t.parent(chain[0]) in persisted
  }

  ghost predicate TaskOk(t: Tree, s: Store, task: Task) {
    && Segment(t, s.persisted, task.chain)
    && (forall c <- task.chain :: c in s.snapshots && c in s.persisting)
    && task.merged == MergeAll(ChangesAlong(t, task.chain))
  }

  ghost predicate TasksApart(tasks: map<nat, Task>) {
    forall i <- tasks, j <- tasks :: i != j ==> Apart(tasks[i].chain, tasks[j].chain)
  }

  ghost predicate Apart(a: seq<Digest>, b: seq<Digest>) {
    forall c <- a :: c !in b
  }

  ghost predicate TasksOk(t: Tree, store: Store, tasks: map<nat, Task>) {
    && (forall i <- tasks :: TaskOk(t, store, tasks[i]))
    && TasksApart(tasks)
    && (forall c <- store.persisting :: InSomeTask(tasks, c))
  }

  ghost predicate InSomeTask(tasks: map<nat, Task>, c: Digest) {
    exists i <- tasks :: c in tasks[i].chain
  }

  ghost predicate InCommitted(tasks: map<nat, Task>, d: Digest) {
    exists i <- tasks :: tasks[i].stage == Committed && d in tasks[i].chain
  }

  ghost predicate LogOk(t: Tree, persisted: set<Digest>, tasks: map<nat, Task>, log: seq<Digest>) {
    && Distinct(log)
    && forall d: Digest :: d in log <==> (d in persisted && d != t.genesis) || InCommitted(tasks, d)
  }

  ghost predicate ExecutionsOk(t: Tree, store: Store, executions: map<nat, Execution>) {
    forall e <- executions :: executions[e].block != t.genesis && Known(store, t.parent(executions[e].block))
  }

  ghost predicate Inv(t: Tree, s: State) {
    && StoreOk(t, s.store)
    && TasksOk(t, s.store, s.tasks)
    && LogOk(t, s.store.persisted, s.tasks, s.log)
    && ExecutionsOk(t, s.store, s.executions)
  }

  // ----- the chain a persist picks -----

  /** The chain found by walking the store is the segment of the tree up to the target,
      with the blocks' own changes. */
  lemma {:induction false} UnpersistedIsSegment(t: Tree, s: Store, d: Digest)
    requires WellFormed(t) && StoreOk(t, s)
    requires Unpersisted(s, t.height, d).Ok?
    ensures var chain := Unpersisted(s, t.height, d).value;
      && (chain == [] <==> d in s.persisted)
      && (chain != [] ==> Segment(t, s.persisted, chain) && chain[|chain| - 1] == d)
      && ChangesOf(s.snapshots, chain) == ChangesAlong(t, chain)
    decreases t.height(d)
  {
    if d !in s.persisted {
      assert SnapshotOk(t, s, d);
      var p := t.parent(d);
      UnpersistedIsSegment(t, s, p);
      var init := Unpersisted(s, t.height, p).value;
      var chain := init + [d];
      assert Linked(t, chain) by {
        forall j, k | 0 <= j && k == j + 1 && k < |chain| ensures t.parent(chain[k]) == chain[j] {
          if k < |init| {
            assert t.parent(init[k]) == init[j];
          }
        }
      }
    }
  }

  /** A block with a snapshot always has its whole unpersisted chain in memory, so its
      persist cannot fail for a missing snapshot. */
  lemma {:induction false} ChainComplete(t: Tree, s: Store, d: Digest)
    requires WellFormed(t) && StoreOk(t, s) && Known(s, d)
    ensures Unpersisted(s, t.height, d).Ok?
    decreases t.height(d)
  {
    if d !in s.persisted {
      assert SnapshotOk(t, s, d);
      ChainComplete(t, s, t.parent(d));
    }
  }

  // ----- every step keeps the invariant -----

  lemma InsertKeeps(t: Tree, s: State, e: nat)
    requires WellFormed(t) && Inv(t, s)
    ensures Inv(t, AfterInsert(t, s, e))
  {
    var r := AfterInsert(t, s, e);
    if r != s {
      forall d <- r.store.snapshots ensures SnapshotOk(t, r.store, d) {
        assert d in s.store.snapshots ==> SnapshotOk(t, s.store, d);
      }
      forall i <- r.tasks ensures TaskOk(t, r.store, r.tasks[i]) {
        assert TaskOk(t, s.store, s.tasks[i]);
      }
    }
  }

  lemma CaptureKeeps(t: Tree, s: State, e: nat, d: Digest)
    requires Inv(t, s)
    ensures Inv(t, AfterCapture(t, s, e, d))
  {
  }

  lemma ComputeRootKeeps(t: Tree, s: State, e: nat)
    requires Inv(t, s)
    ensures Inv(t, AfterComputeRoot(t, s, e))
  {
  }

  lemma AddedTask(tasks: map<nat, Task>, i: nat, task: Task, c: Digest)
    requires i !in tasks && (InSomeTask(tasks, c) || c in task.chain)
    ensures InSomeTask(tasks[i := task], c)
  {
    var after := tasks[i := task];
    if c in task.chain {
      assert c in after[i].chain;
    } else {
      var j :| j in tasks && c in tasks[j].chain;
      assert c in after[j].chain;
    }
  }

  /** Adding a task on a free segment keeps all of them in order. */
  lemma BeginTasks(t: Tree, s: Store, tasks: map<nat, Task>, i: nat, task: Task)
    requires TasksOk(t, s, tasks) && i !in tasks && Ledger.Free(s, task.chain)
    requires TaskOk(t, s.(persisting := s.persisting + Elems(task.chain)), task)
    ensures TasksOk(t, s.(persisting := s.persisting + Elems(task.chain)), tasks[i := task])
  {
    var r, after := s.(persisting := s.persisting + Elems(task.chain)), tasks[i := task];
    forall j <- tasks ensures TaskOk(t, r, tasks[j]) && Apart(tasks[j].chain, task.chain) && Apart(task.chain, tasks[j].chain) {
      assert TaskOk(t, s, tasks[j]);
    }
    forall c <- r.persisting ensures InSomeTask(after, c) {
      AddedTask(tasks, i, task, c);
    }
  }

  /** Replacing or adding a task that is not committed does not change what is. */
  lemma SameCommitted(tasks: map<nat, Task>, i: nat, task: Task, d: Digest)
    requires task.stage != Committed && (i in tasks ==> tasks[i].stage != Committed)
    ensures InCommitted(tasks[i := task], d) <==> InCommitted(tasks, d)
  {
    if InCommitted(tasks, d) {
      var j :| j in tasks && tasks[j].stage == Committed && d in tasks[j].chain;
      assert tasks[i := task][j] == tasks[j];
    }
  }

  lemma BeginKeeps(t: Tree, s: State, i: nat, d: Digest)
    requires WellFormed(t) && Inv(t, s)
    ensures Inv(t, AfterBegin(t, s, i, d))
  {
    var (store, begun) := Ledger.Begin(s.store, t.height, d);
    if i !in s.tasks && begun.Started? {
      var task := Task(begun.chain, begun.changes, InFlight);
      UnpersistedIsSegment(t, s.store, d);
      BeginTasks(t, s.store, s.tasks, i, task);
      forall d <- store.snapshots ensures SnapshotOk(t, store, d) {
        assert SnapshotOk(t, s.store, d);
      }
      forall d: Digest ensures InCommitted(s.tasks[i := task], d) <==> InCommitted(s.tasks, d) {
        SameCommitted(s.tasks, i, task, d);
      }
    }
  }

  /** Where a task is does not matter for its chain. */
  lemma StageTasks(t: Tree, store: Store, tasks: map<nat, Task>, i: nat, stage: Stage)
    requires TasksOk(t, store, tasks) && i in tasks
    ensures TasksOk(t, store, tasks[i := tasks[i].(stage := stage)])
  {
    var after := tasks[i := tasks[i].(stage := stage)];
    forall j <- tasks ensures TaskOk(t, store, after[j]) && after[j].chain == tasks[j].chain {
      assert TaskOk(t, store, tasks[j]);
    }
    forall c <- store.persisting ensures InSomeTask(after, c) {
      assert InSomeTask(tasks, c);
      var j :| j in tasks && c in tasks[j].chain;
      assert c in after[j].chain;
    }
  }

  lemma CommitKeeps(t: Tree, s: State, i: nat, ok: bool)
    requires WellFormed(t) && Inv(t, s)
    ensures Inv(t, AfterCommit(s, i, ok))
  {
    if i in s.tasks && s.tasks[i].stage == InFlight {
      var task := s.tasks[i].(stage := if ok then Committed else Failed);
      StageTasks(t, s.store, s.tasks, i, task.stage);
      if ok {
        CommitLog(t, s, i);
      } else {
        forall d: Digest ensures InCommitted(s.tasks[i := task], d) <==> InCommitted(s.tasks, d) {
          SameCommitted(s.tasks, i, task, d);
        }
      }
    }
  }

  lemma CommittedGrows(tasks: map<nat, Task>, i: nat, d: Digest)
    requires i in tasks && tasks[i].stage != Committed
    ensures InCommitted(tasks[i := tasks[i].(stage := Committed)], d)
      <==> InCommitted(tasks, d) || d in tasks[i].chain
  {
    var after := tasks[i := tasks[i].(stage := Committed)];
    if InCommitted(tasks, d) {
      var j :| j in tasks && tasks[j].stage == Committed && d in tasks[j].chain;
      assert after[j] == tasks[j];
    }
    if d in tasks[i].chain {
      assert after[i].stage == Committed && d in after[i].chain;
    }
  }

  /** A block of some task is in the log exactly when that task has committed. */
  lemma InLogIffCommitted(t: Tree, s: State, i: nat, c: Digest)
    requires TasksOk(t, s.store, s.tasks) && LogOk(t, s.store.persisted, s.tasks, s.log)
    requires i in s.tasks && c in s.tasks[i].chain
    ensures c in s.log <==> s.tasks[i].stage == Committed
  {
    assert TaskOk(t, s.store, s.tasks[i]);
    forall j <- s.tasks | j != i ensures c !in s.tasks[j].chain {
      assert Apart(s.tasks[i].chain, s.tasks[j].chain);
    }
    assert InCommitted(s.tasks, c) <==> s.tasks[i].stage == Committed;
  }

  lemma CommitLog(t: Tree, s: State, i: nat)
    requires WellFormed(t) && TasksOk(t, s.store, s.tasks) && LogOk(t, s.store.persisted, s.tasks, s.log)
    requires i in s.tasks && s.tasks[i].stage == InFlight
    ensures LogOk(t, s.store.persisted, s.tasks[i := s.tasks[i].(stage := Committed)], s.log + s.tasks[i].chain)
  {
    var chain := s.tasks[i].chain;
    forall d: Digest
      ensures InCommitted(s.tasks[i := s.tasks[i].(stage := Committed)], d) <==> InCommitted(s.tasks, d) || d in chain
    {
      CommittedGrows(s.tasks, i, d);
    }
    forall c <- chain ensures c !in s.log {
      InLogIffCommitted(t, s, i, c);
    }
    assert TaskOk(t, s.store, s.tasks[i]);
    LinkedDistinct(t, chain);
    DistinctConcat(s.log, chain);
  }

  /** What finishing a task does to the store: apart from the marks it compacts the
      snapshots of a committed chain and drops persisted ones. */
  ghost predicate FinishedTo(s: Store, task: Task, r: Store) {
    && r.persisting == s.persisting - Elems(task.chain)
    && r.persisted == (if task.stage == Committed then s.persisted + Elems(task.chain) else s.persisted)
    && r.snapshots.Keys <= s.snapshots.Keys
    && (forall d <- s.snapshots :: d !in r.persisted ==> d in r.snapshots && r.snapshots[d] == s.snapshots[d])
    && (forall d <- r.snapshots ::
      if task.stage == Committed && d in task.chain then IsCompaction(s.snapshots[d], r.snapshots[d])
      else r.snapshots[d] == s.snapshots[d])
  }

  ghost predicate IsCompaction(before: Snapshot, after: Snapshot) {
    after == before.(overlay := map[], changes := map[])
  }

  lemma FinishedByEviction(s: Store, task: Task)
    requires task.stage == Committed
    ensures var compacted := s.(persisting := s.persisting - Elems(task.chain),
        snapshots := Ledger.Compacted(s.snapshots, task.chain));
      FinishedTo(s, task, Evicted(Marked(compacted, task.chain)))
  {
    var compacted := s.(persisting := s.persisting - Elems(task.chain),
      snapshots := Ledger.Compacted(s.snapshots, task.chain));
    MarkedIs(compacted, task.chain);
    EvictedKeeps(Marked(compacted, task.chain));
  }

  /** The second phase never fails after a successful commit. */
  lemma FinishStore(t: Tree, s: Store, task: Task)
    requires TaskOk(t, s, task) && task.stage != InFlight
    ensures var (r, result) := Ledger.Finish(s, task.chain, task.stage == Committed);
      && FinishedTo(s, task, r)
      && result == (if task.stage == Committed then Ok(true) else Err(Ledger.CommitFailed))
  {
    if task.stage == Committed {
      var n := Ledger.FirstMissing(s.snapshots, task.chain);
      assert n == |task.chain| && task.chain[..n] == task.chain;
      FinishedByEviction(s, task);
    }
  }

  lemma FinishNext(t: Tree, s: State, i: nat)
    requires i in s.tasks && s.tasks[i].stage != InFlight && TaskOk(t, s.store, s.tasks[i])
    ensures var r := AfterFinish(s, i);
      r == s.(store := r.store, tasks := s.tasks - {i}) && FinishedTo(s.store, s.tasks[i], r.store)
  {
    FinishStore(t, s.store, s.tasks[i]);
  }

  lemma FinishKeeps(t: Tree, s: State, i: nat)
    requires WellFormed(t) && Inv(t, s)
    ensures Inv(t, AfterFinish(s, i))
  {
    if i in s.tasks && s.tasks[i].stage != InFlight {
      var r := AfterFinish(s, i).store;
      assert TaskOk(t, s.store, s.tasks[i]);
      FinishNext(t, s, i);
      FinishStoreOk(t, s.store, s.tasks[i], r);
      FinishTasks(t, s.store, s.tasks, i, r);
      FinishLog(t, s, i, r);
      assert forall d: Digest :: Known(s.store, d) ==> Known(r, d);
    }
  }

  lemma FinishClosed(t: Tree, s: Store, task: Task)
    requires PersistedClosed(t, s) && Segment(t, s.persisted, task.chain)
    ensures PersistedClosed(t, s.(persisted := s.persisted + Elems(task.chain)))
  {
    var chain := task.chain;
    forall d <- chain ensures t.parent(d) in s.persisted + Elems(chain) {
      var k :| 0 <= k < |chain| && chain[k] == d;
      if k > 0 {
        var j := k - 1;
        assert t.parent(chain[k]) == chain[j];
      }
    }
  }

  lemma FinishStoreOk(t: Tree, s: Store, task: Task, r: Store)
    requires StoreOk(t, s) && TaskOk(t, s, task) && FinishedTo(s, task, r)
    ensures StoreOk(t, r)
  {
    FinishClosed(t, s, task);
    forall d <- r.snapshots ensures SnapshotOk(t, r, d) {
      assert SnapshotOk(t, s, d);
    }
  }

  lemma FinishOther(t: Tree, s: Store, task: Task, r: Store, other: Task)
    requires FinishedTo(s, task, r) && TaskOk(t, s, other) && Apart(other.chain, task.chain)
    ensures TaskOk(t, r, other)
  {
  }

  lemma RemovedTask(tasks: map<nat, Task>, i: nat, c: Digest)
    requires i in tasks && InSomeTask(tasks, c) && c !in tasks[i].chain
    ensures InSomeTask(tasks - {i}, c)
  {
    var j :| j in tasks && c in tasks[j].chain;
    assert j in tasks - {i};
  }

  lemma FinishTasks(t: Tree, s: Store, tasks: map<nat, Task>, i: nat, r: Store)
    requires TasksOk(t, s, tasks) && i in tasks && FinishedTo(s, tasks[i], r)
    ensures TasksOk(t, r, tasks - {i})
  {
    forall j <- tasks - {i} ensures TaskOk(t, r, tasks[j]) {
      FinishOther(t, s, tasks[i], r, tasks[j]);
    }
    forall c <- r.persisting ensures InSomeTask(tasks - {i}, c) {
      RemovedTask(tasks, i, c);
    }
  }

  lemma FinishLog(t: Tree, s: State, i: nat, r: Store)
    requires i in s.tasks && StoreOk(t, s.store) && TaskOk(t, s.store, s.tasks[i])
    requires LogOk(t, s.store.persisted, s.tasks, s.log) && FinishedTo(s.store, s.tasks[i], r)
    ensures LogOk(t, r.persisted, s.tasks - {i}, s.log)
  {
    var task := s.tasks[i];
    forall d: Digest
      ensures InCommitted(s.tasks, d) <==> InCommitted(s.tasks - {i}, d) || (task.stage == Committed && d in task.chain)
    {
      CommittedShrinks(s.tasks, i, d);
    }
  }

  lemma CommittedShrinks(tasks: map<nat, Task>, i: nat, d: Digest)
    requires i in tasks
    ensures InCommitted(tasks, d)
      <==> InCommitted(tasks - {i}, d) || (tasks[i].stage == Committed && d in tasks[i].chain)
  {
    var rest := tasks - {i};
    if InCommitted(tasks, d) {
      var j :| j in tasks && tasks[j].stage == Committed && d in tasks[j].chain;
      assert j != i ==> j in rest && rest[j] == tasks[j];
    }
    if InCommitted(rest, d) {
      var j :| j in rest && rest[j].stage == Committed && d in rest[j].chain;
      assert tasks[j] == rest[j];
    }
  }

  lemma NextKeeps(t: Tree, s: State, step: Step)
    requires WellFormed(t) && Inv(t, s)
    ensures Inv(t, Next(t, s, step))
  {
    match step
    case Insert(e) => InsertKeeps(t, s, e);
    case Begin(i, d) => BeginKeeps(t, s, i, d);
    case Commit(i, ok) => CommitKeeps(t, s, i, ok);
    case Finish(i) => FinishKeeps(t, s, i);
    case Capture(e, d) => CaptureKeeps(t, s, e, d);
    case ComputeRoot(e) => ComputeRootKeeps(t, s, e);
  }

  lemma InitialInv(t: Tree, w: World, root: Root, retained: nat)
    requires WellFormed(t)
    ensures Inv(t, Initial(t, w, root, retained))
  {
  }

  /** In every run, from genesis and under any interleaving. */
  lemma {:induction false} RunKeeps(t: Tree, s: State, steps: seq<Step>)
    requires WellFormed(t) && Inv(t, s)
    ensures Inv(t, Run(t, s, steps))
  {
    if steps != [] {
      RunKeeps(t, s, steps[..|steps| - 1]);
      NextKeeps(t, Run(t, s, steps[..|steps| - 1]), steps[|steps| - 1]);
    }
  }

  // ----- what the invariant means -----

  /** In every reachable state: no block was committed twice; the blocks in flight are
      exactly those of persist tasks under way, on disjoint chains; a block is marked
      persisted only after it was committed, with all its ancestors; a finished commit
      finds all the snapshots it compacts; and a persist of any inserted block finds its
      chain. */
  lemma TwoPhaseSafety(t: Tree, w: World, root: Root, retained: nat, steps: seq<Step>)
    requires WellFormed(t)
    ensures var s := Run(t, Initial(t, w, root, retained), steps);
      && Distinct(s.log)
      && TasksApart(s.tasks)
      && (forall c: Digest :: c in s.store.persisting <==> InSomeTask(s.tasks, c))
      && (forall d <- s.store.persisted :: d != t.genesis ==> d in s.log && t.parent(d) in s.store.persisted)
      && (s.tasks == map[] ==> s.store.persisted == Elems(s.log) + {t.genesis})
      && (forall i <- s.tasks :: s.tasks[i].stage == Committed ==>
        Ledger.Finish(s.store, s.tasks[i].chain, true).1 == Ok(true))
      && (forall d <- s.store.snapshots :: !Ledger.Begin(s.store, t.height, d).1.Missing?)
  {
    var s := Run(t, Initial(t, w, root, retained), steps);
    InitialInv(t, w, root, retained);
    RunKeeps(t, Initial(t, w, root, retained), steps);
    forall i <- s.tasks ensures TaskOk(t, s.store, s.tasks[i])
      && (s.tasks[i].stage == Committed ==> Ledger.Finish(s.store, s.tasks[i].chain, true).1 == Ok(true))
    {
      if s.tasks[i].stage == Committed {
        FinishStore(t, s.store, s.tasks[i]);
      }
    }
    forall d <- s.store.snapshots ensures !Ledger.Begin(s.store, t.height, d).1.Missing? {
      ChainComplete(t, s.store, d);
    }
  }

  // ----- refinement of the one-step ledger -----

  /** The simple ledger: one atomic persist of everything up to a block. */
  datatype Simple = Simple(persisted: set<Digest>, base: World)

  ghost function TreeChain(t: Tree, persisted: set<Digest>, d: Digest): (r: seq<Digest>)
    requires WellFormed(t)
    decreases t.height(d)
  {
    if d in persisted || d == t.genesis then [] else TreeChain(t, persisted, t.parent(d)) + [d]
  }

  ghost function PersistAtOnce(t: Tree, q: Simple, d: Digest): (r: Simple)
    requires WellFormed(t)
  {
    var chain := TreeChain(t, q.persisted, d);
    if chain == [] then q
    else Simple(q.persisted + Elems(chain), Apply(q.base, MergeAll(ChangesAlong(t, chain))))
  }

  ghost function PersistEach(t: Tree, q: Simple, targets: seq<Digest>): (r: Simple)
    requires WellFormed(t)
  {
    if targets == [] then q
    else PersistAtOnce(t, PersistEach(t, q, targets[..|targets| - 1]), targets[|targets| - 1])
  }

  /** A block counts as persisted for the simple ledger once it is committed. */
  ghost function Abstract(t: Tree, s: State): (r: Simple) {
    Simple(Elems(s.log) + {t.genesis}, s.base)
  }

  /** The target of the commit a step performs. */
  ghost function Target(s: State, step: Step): (r: seq<Digest>) {
    if step.Commit? && step.ok && step.i in s.tasks && s.tasks[step.i].stage == InFlight
      && s.tasks[step.i].chain != [] then
      var chain := s.tasks[step.i].chain;
      [chain[|chain| - 1]]
    else []
  }

  ghost function Targets(t: Tree, s: State, steps: seq<Step>): (r: seq<Digest>) {
    if steps == [] then []
    else
      var init := steps[..|steps| - 1];
      Targets(t, s, init) + Target(Run(t, s, init), steps[|steps| - 1])
  }

  lemma {:induction false} SegmentIsTreeChain(t: Tree, persisted: set<Digest>, chain: seq<Digest>)
    requires WellFormed(t) && Segment(t, persisted, chain)
    ensures TreeChain(t, persisted, chain[|chain| - 1]) == chain
  {
    var n := |chain| - 1;
    var init := chain[..n];
    assert chain == init + [chain[n]];
    if n > 0 {
      var k := n - 1;
      assert t.parent(chain[n]) == chain[k];
      forall j, m | 0 <= j && m == j + 1 && m < |init| ensures t.parent(init[m]) == init[j] {
        assert t.parent(chain[m]) == chain[j];
      }
      SegmentIsTreeChain(t, persisted, init);
    }
  }

  lemma InFlightSegment(t: Tree, s: State, i: nat)
    requires Inv(t, s) && i in s.tasks && s.tasks[i].stage == InFlight
    ensures Segment(t, Abstract(t, s).persisted, s.tasks[i].chain)
  {
    assert TaskOk(t, s.store, s.tasks[i]);
    forall c <- s.tasks[i].chain ensures c !in s.log {
      InLogIffCommitted(t, s, i, c);
    }
  }

  lemma PersistSegment(t: Tree, q: Simple, chain: seq<Digest>)
    requires WellFormed(t) && Segment(t, q.persisted, chain)
    ensures PersistAtOnce(t, q, chain[|chain| - 1])
      == Simple(q.persisted + Elems(chain), Apply(q.base, MergeAll(ChangesAlong(t, chain))))
  {
    SegmentIsTreeChain(t, q.persisted, chain);
  }

  lemma CommitRefines(t: Tree, s: State, i: nat)
    requires WellFormed(t) && Inv(t, s) && i in s.tasks && s.tasks[i].stage == InFlight
    ensures var chain := s.tasks[i].chain;
      chain != [] && Abstract(t, AfterCommit(s, i, true)) == PersistAtOnce(t, Abstract(t, s), chain[|chain| - 1])
  {
    var chain := s.tasks[i].chain;
    InFlightSegment(t, s, i);
    PersistSegment(t, Abstract(t, s), chain);
    assert TaskOk(t, s.store, s.tasks[i]);
    assert Elems(s.log + chain) + {t.genesis} == Elems(s.log) + {t.genesis} + Elems(chain);
  }

  lemma OtherStepsStutter(t: Tree, s: State, step: Step)
    requires Target(s, step) == []
    requires step.Commit? && step.i in s.tasks ==> s.tasks[step.i].chain != []
    ensures Abstract(t, Next(t, s, step)) == Abstract(t, s)
  {
  }

  /** A commit is one persist of the simple ledger; every other step changes nothing it
      can see. */
  lemma StepRefines(t: Tree, s: State, step: Step)
    requires WellFormed(t) && Inv(t, s)
    ensures Abstract(t, Next(t, s, step)) == PersistEach(t, Abstract(t, s), Target(s, step))
  {
    if Target(s, step) == [] {
      assert step.Commit? && step.i in s.tasks ==> TaskOk(t, s.store, s.tasks[step.i]);
      OtherStepsStutter(t, s, step);
    } else {
      CommitRefines(t, s, step.i);
      assert Target(s, step)[..0] == [];
    }
  }

  lemma {:induction false} PersistEachConcat(t: Tree, q: Simple, a: seq<Digest>, b: seq<Digest>)
    requires WellFormed(t)
    ensures PersistEach(t, q, a + b) == PersistEach(t, PersistEach(t, q, a), b)
  {
    if b == [] {
      assert a + b == a;
    } else {
      PersistEachConcat(t, q, a, b[..|b| - 1]);
      assert (a + b)[..|a + b| - 1] == a + b[..|b| - 1] && (a + b)[|a + b| - 1] == b[|b| - 1];
    }
  }

  /** Every interleaving of the two-phase ledger is a run of the simple one, over the
      targets in the order of their commits. */
  lemma {:induction false} TwoPhaseRefinesSimple(t: Tree, s: State, steps: seq<Step>)
    requires WellFormed(t) && Inv(t, s)
    ensures Abstract(t, Run(t, s, steps)) == PersistEach(t, Abstract(t, s), Targets(t, s, steps))
  {
    if steps != [] {
      var init, last := steps[..|steps| - 1], steps[|steps| - 1];
      TwoPhaseRefinesSimple(t, s, init);
      RunKeeps(t, s, init);
      StepRefines(t, Run(t, s, init), last);
      PersistEachConcat(t, Abstract(t, s), Targets(t, s, init), Target(Run(t, s, init), last));
    }
  }
}
