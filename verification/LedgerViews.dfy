/** What executions read through snapshots while the shared base moves under them, and
    the roots the snapshots carry. */
module LedgerViews {
  import opened Prelude
  import opened StateChanges
  import opened SnapshotStore
  import opened BlockTree
  import opened Persistence
  import Ledger

  // ----- overlays -----

  /** The overlay of `d` holds the merged changes of every block after `a`. */
  ghost predicate IsAnchor(t: Tree, log: seq<Digest>, d: Digest, overlay: ChangeSet, a: Digest)
    requires WellFormed(t)
  {
    && (a == t.genesis || a in log)
    && IsAncestor(t, a, d)
    && overlay == MergeAll(ChangesAlong(t, Between(t, a, d)))
  }

  /** ... for a block that is genesis or already committed. */
  ghost predicate Anchored(t: Tree, log: seq<Digest>, d: Digest, overlay: ChangeSet)
    requires WellFormed(t)
  {
    exists a :: IsAnchor(t, log, d, overlay, a)
  }

  ghost predicate SnapshotsAnchored(t: Tree, log: seq<Digest>, snapshots: map<Digest, Snapshot>)
    requires WellFormed(t)
  {
    forall d <- snapshots :: Anchored(t, log, d, snapshots[d].overlay)
  }

  ghost predicate ExecutionsAnchored(t: Tree, log: seq<Digest>, executions: map<nat, Execution>)
    requires WellFormed(t)
  {
    forall e <- executions :: Anchored(t, log, t.parent(executions[e].block), executions[e].parent.overlay)
  }

  ghost predicate OverlaysOk(t: Tree, s: State)
    requires WellFormed(t)
  {
    SnapshotsAnchored(t, s.log, s.store.snapshots) && ExecutionsAnchored(t, s.log, s.executions)
  }

  lemma AnchoredGrows(t: Tree, log: seq<Digest>, more: seq<Digest>, d: Digest, overlay: ChangeSet)
    requires WellFormed(t) && Anchored(t, log, d, overlay)
    ensures Anchored(t, log + more, d, overlay)
  {
    var a :| IsAnchor(t, log, d, overlay, a);
    assert IsAnchor(t, log + more, d, overlay, a);
  }

  lemma ExecutedAnchored(t: Tree, log: seq<Digest>, x: Execution)
    requires WellFormed(t) && x.block != t.genesis && x.root.Some?
    requires Anchored(t, log, t.parent(x.block), x.parent.overlay)
    ensures Anchored(t, log, x.block, Executed(t, x).overlay)
  {
    var p := t.parent(x.block);
    var a :| IsAnchor(t, log, p, x.parent.overlay, a);
    AncestorHeight(t, a, p);
    var css := ChangesAlong(t, Between(t, a, p));
    assert ChangesAlong(t, Between(t, a, x.block)) == css + [t.changes(x.block)];
    assert (css + [t.changes(x.block)])[..|css|] == css;
    assert IsAnchor(t, log, x.block, Executed(t, x).overlay, a);
  }

  lemma EmptyAnchored(t: Tree, log: seq<Digest>, d: Digest)
    requires WellFormed(t) && (d == t.genesis || d in log)
    ensures Anchored(t, log, d, map[])
  {
    assert IsAnchor(t, log, d, map[], d);
  }

  lemma FinishOverlays(t: Tree, s: State, i: nat, r: Store)
    requires WellFormed(t) && LogOk(t, s.store.persisted, s.tasks, s.log) && SnapshotsAnchored(t, s.log, s.store.snapshots)
    requires i in s.tasks && FinishedTo(s.store, s.tasks[i], r)
    ensures SnapshotsAnchored(t, s.log, r.snapshots)
  {
    forall d <- r.snapshots ensures Anchored(t, s.log, d, r.snapshots[d].overlay) {
      if s.tasks[i].stage == Committed && d in s.tasks[i].chain {
        assert InCommitted(s.tasks, d);
        EmptyAnchored(t, s.log, d);
      }
    }
  }

  lemma CommitOverlays(t: Tree, s: State, more: seq<Digest>)
    requires WellFormed(t) && OverlaysOk(t, s)
    ensures OverlaysOk(t, s.(log := s.log + more))
  {
    forall d <- s.store.snapshots ensures Anchored(t, s.log + more, d, s.store.snapshots[d].overlay) {
      AnchoredGrows(t, s.log, more, d, s.store.snapshots[d].overlay);
    }
    forall e <- s.executions
      ensures Anchored(t, s.log + more, t.parent(s.executions[e].block), s.executions[e].parent.overlay)
    {
      AnchoredGrows(t, s.log, more, t.parent(s.executions[e].block), s.executions[e].parent.overlay);
    }
  }

  lemma InsertOverlays(t: Tree, s: State, e: nat)
    requires WellFormed(t) && ExecutionsOk(t, s.store, s.executions) && OverlaysOk(t, s)
    requires e in s.executions && s.executions[e].root.Some?
    ensures OverlaysOk(t, AfterInsert(t, s, e))
  {
    ExecutedAnchored(t, s.log, s.executions[e]);
  }

  lemma BeginOverlays(t: Tree, s: State, i: nat, d: Digest)
    requires WellFormed(t) && OverlaysOk(t, s)
    ensures OverlaysOk(t, AfterBegin(t, s, i, d))
  {
    var r := AfterBegin(t, s, i, d);
    assert r.store.snapshots == s.store.snapshots && r.log == s.log && r.executions == s.executions;
  }

  /** An execution captures an overlay of the store and keeps it. */
  lemma CaptureOverlays(t: Tree, s: State, e: nat, d: Digest)
    requires WellFormed(t) && OverlaysOk(t, s)
    ensures OverlaysOk(t, AfterCapture(t, s, e, d))
  {
    var r := AfterCapture(t, s, e, d);
    forall e <- r.executions
      ensures Anchored(t, r.log, t.parent(r.executions[e].block), r.executions[e].parent.overlay)
    {
      if e !in s.executions {
        assert r.executions[e].parent == s.store.snapshots[t.parent(r.executions[e].block)];
      }
    }
  }

  ghost predicate FewerCaptures(before: map<nat, Execution>, after: map<nat, Execution>) {
    forall x <- after :: x in before && after[x].block == before[x].block && after[x].parent == before[x].parent
  }

  lemma ComputeRootCaptures(t: Tree, s: State, e: nat)
    ensures var r := AfterComputeRoot(t, s, e);
      r.store == s.store && r.log == s.log && FewerCaptures(s.executions, r.executions)
  {
  }

  lemma SameCaptures(t: Tree, log: seq<Digest>, before: map<nat, Execution>, after: map<nat, Execution>)
    requires WellFormed(t) && ExecutionsAnchored(t, log, before) && FewerCaptures(before, after)
    ensures ExecutionsAnchored(t, log, after)
  {
  }

  lemma ComputeRootOverlays(t: Tree, s: State, r: State, e: nat)
    requires WellFormed(t) && OverlaysOk(t, s) && r == AfterComputeRoot(t, s, e)
    ensures OverlaysOk(t, r)
  {
    ComputeRootCaptures(t, s, e);
    SameCaptures(t, s.log, s.executions, r.executions);
  }

  lemma NextOverlays(t: Tree, s: State, step: Step)
    requires WellFormed(t) && Inv(t, s) && OverlaysOk(t, s)
    ensures OverlaysOk(t, Next(t, s, step))
  {
    match step
    case Insert(e) =>
      if e in s.executions && s.executions[e].root.Some? {
        InsertOverlays(t, s, e);
      }
    case Commit(i, ok) =>
      if i in s.tasks {
        CommitOverlays(t, s, s.tasks[i].chain);
      }
    case Finish(i) =>
      if i in s.tasks && s.tasks[i].stage != InFlight {
        assert TaskOk(t, s.store, s.tasks[i]);
        FinishNext(t, s, i);
        FinishOverlays(t, s, i, Next(t, s, step).store);
      }
    case Begin(i, d) => BeginOverlays(t, s, i, d);
    case Capture(e, d) => CaptureOverlays(t, s, e, d);
    case ComputeRoot(e) => ComputeRootOverlays(t, s, Next(t, s, step), e);
  }

  // ----- the base -----

  /** The base is the committed blocks replayed one by one, in the order of the log. */
  ghost predicate BaseOk(t: Tree, w: World, s: State) {
    s.base == Replay(w, ChangesAlong(t, s.log))
  }

  lemma NextBase(t: Tree, w: World, s: State, step: Step)
    requires WellFormed(t) && SafeTree(t) && Inv(t, s) && BaseOk(t, w, s)
    ensures BaseOk(t, w, Next(t, s, step))
  {
    if step.Commit? && step.i in s.tasks {
      var task := s.tasks[step.i];
      assert TaskOk(t, s.store, task);
      CommitBase(t, w, s.log, task.chain);
    }
  }

  lemma CommitBase(t: Tree, w: World, log: seq<Digest>, chain: seq<Digest>)
    requires WellFormed(t) && SafeTree(t) && Linked(t, chain) && chain != []
    ensures Replay(w, ChangesAlong(t, log + chain))
      == Apply(Replay(w, ChangesAlong(t, log)), MergeAll(ChangesAlong(t, chain)))
  {
    var before, css := ChangesAlong(t, log), ChangesAlong(t, chain);
    ChangesAlongConcat(t, log, chain);
    ReplayConcat(w, before, css);
    LinkedIsPath(t, chain);
    OverlayOnAdvancedBase(Replay(w, before), css, 0);
    assert css[..0] == [];
  }

  // ----- the roots -----

  ghost predicate RootsOk(t: Tree, root: Root, snapshots: map<Digest, Snapshot>, executions: map<nat, Execution>)
    requires WellFormed(t)
  {
    && (forall d <- snapshots :: snapshots[d].root == RootAt(t, root, d))
    && (forall e <- executions :: executions[e].root.Some? ==>
      executions[e].root.value == RootAt(t, root, executions[e].block))
  }

  lemma ComputeRootRoots(t: Tree, root: Root, s: State, e: nat)
    requires WellFormed(t) && ExecutionsOk(t, s.store, s.executions)
    requires RootsOk(t, root, s.store.snapshots, s.executions)
    ensures RootsOk(t, root, s.store.snapshots, AfterComputeRoot(t, s, e).executions)
  {
  }

  lemma FinishRoots(t: Tree, root: Root, s: State, i: nat, r: Store)
    requires WellFormed(t) && RootsOk(t, root, s.store.snapshots, s.executions)
    requires i in s.tasks && FinishedTo(s.store, s.tasks[i], r)
    ensures RootsOk(t, root, r.snapshots, s.executions)
  {
  }

  lemma InsertRoots(t: Tree, root: Root, s: State, e: nat)
    requires WellFormed(t) && RootsOk(t, root, s.store.snapshots, s.executions)
    ensures RootsOk(t, root, AfterInsert(t, s, e).store.snapshots, AfterInsert(t, s, e).executions)
  {
  }

  lemma FinishStepRoots(t: Tree, root: Root, s: State, i: nat)
    requires WellFormed(t) && RootsOk(t, root, s.store.snapshots, s.executions)
    requires TasksOk(t, s.store, s.tasks)
    ensures RootsOk(t, root, AfterFinish(s, i).store.snapshots, AfterFinish(s, i).executions)
  {
    if i in s.tasks && s.tasks[i].stage != InFlight {
      assert TaskOk(t, s.store, s.tasks[i]);
      FinishNext(t, s, i);
      FinishRoots(t, root, s, i, AfterFinish(s, i).store);
    }
  }

  lemma NextRoots(t: Tree, root: Root, s: State, step: Step)
    requires WellFormed(t) && Inv(t, s) && RootsOk(t, root, s.store.snapshots, s.executions)
    ensures RootsOk(t, root, Next(t, s, step).store.snapshots, Next(t, s, step).executions)
  {
    match step
    case Insert(e) => InsertRoots(t, root, s, e);
    case ComputeRoot(e) => ComputeRootRoots(t, root, s, e);
    case Finish(i) => FinishStepRoots(t, root, s, i);
    case Begin(i, d) => assert AfterBegin(t, s, i, d).store.snapshots == s.store.snapshots;
    case _ =>
  }

  // ----- whole runs -----

  lemma {:induction false} RunViews(t: Tree, w: World, root: Root, retained: nat, steps: seq<Step>)
    requires WellFormed(t)
    ensures var s := Run(t, Initial(t, w, root, retained), steps);
      Inv(t, s) && OverlaysOk(t, s) && RootsOk(t, root, s.store.snapshots, s.executions) && (SafeTree(t) ==> BaseOk(t, w, s))
  {
    var first := Initial(t, w, root, retained);
    if steps == [] {
      InitialInv(t, w, root, retained);
      EmptyAnchored(t, [], t.genesis);
    } else {
      var init, last := steps[..|steps| - 1], steps[|steps| - 1];
      RunViews(t, w, root, retained, init);
      var s := Run(t, first, init);
      NextKeeps(t, s, last);
      NextOverlays(t, s, last);
      NextRoots(t, root, s, last);
      if SafeTree(t) {
        NextBase(t, w, s, last);
      }
    }
  }

  ghost function Tip(t: Tree, log: seq<Digest>): (r: Digest) {
    if log == [] then t.genesis else log[|log| - 1]
  }

  /** What was committed so far is one path of the tree, as finalization makes it. */
  ghost predicate OneChain(t: Tree, log: seq<Digest>)
    requires WellFormed(t)
  {
    log == Between(t, t.genesis, Tip(t, log))
  }

  /** Every commit of the run goes to a block above everything committed before it. */
  ghost predicate Finalizing(t: Tree, s: State, steps: seq<Step>)
    requires WellFormed(t)
  {
    steps == [] ||
    var init := steps[..|steps| - 1];
    var before := Run(t, s, init);
    Finalizing(t, s, init)
    && forall d <- Target(before, steps[|steps| - 1]) :: IsAncestor(t, Tip(t, before.log), d)
  }

  lemma TipCommitted(t: Tree, log: seq<Digest>)
    ensures Tip(t, log) in Elems(log) + {t.genesis}
  {
  }

  /** Above a one-chain log, the unpersisted chain of a block starts at the tip. */
  lemma {:induction false} ChainFromTip(t: Tree, log: seq<Digest>, d: Digest)
    requires WellFormed(t) && OneChain(t, log) && IsAncestor(t, Tip(t, log), d)
    ensures TreeChain(t, Elems(log) + {t.genesis}, d) == Between(t, Tip(t, log), d)
    decreases t.height(d)
  {
    var tip := Tip(t, log);
    TipCommitted(t, log);
    if d != tip {
      AncestorHeight(t, tip, t.parent(d));
      if d in log {
        OnPathIsAncestor(t, t.genesis, d, tip);
        AncestorHeight(t, d, tip);
      }
      ChainFromTip(t, log, t.parent(d));
    }
  }

  lemma CommitOneChain(t: Tree, s: State, i: nat)
    requires WellFormed(t) && Inv(t, s) && OneChain(t, s.log)
    requires i in s.tasks && s.tasks[i].stage == InFlight && s.tasks[i].chain != []
    requires IsAncestor(t, Tip(t, s.log), s.tasks[i].chain[|s.tasks[i].chain| - 1])
    ensures OneChain(t, s.log + s.tasks[i].chain)
  {
    var chain, tip := s.tasks[i].chain, Tip(t, s.log);
    var d := chain[|chain| - 1];
    InFlightSegment(t, s, i);
    SegmentIsTreeChain(t, Elems(s.log) + {t.genesis}, chain);
    ChainFromTip(t, s.log, d);
    GenesisAncestor(t, tip);
    BetweenSplit(t, t.genesis, tip, d);
  }

  lemma StepOneChain(t: Tree, s: State, step: Step)
    requires WellFormed(t) && Inv(t, s) && OneChain(t, s.log)
    requires forall d <- Target(s, step) :: IsAncestor(t, Tip(t, s.log), d)
    ensures OneChain(t, Next(t, s, step).log)
  {
    if Target(s, step) == [] {
      assert step.Commit? && step.i in s.tasks ==> TaskOk(t, s.store, s.tasks[step.i]);
      LogUnchanged(t, s, step);
    } else {
      assert Target(s, step)[0] in Target(s, step);
      CommitOneChain(t, s, step.i);
    }
  }

  /** A ledger that only finalizes upwards commits a single chain. */
  lemma {:induction false} FinalizingIsOneChain(t: Tree, w: World, root: Root, retained: nat, steps: seq<Step>)
    requires WellFormed(t) && Finalizing(t, Initial(t, w, root, retained), steps)
    ensures OneChain(t, Run(t, Initial(t, w, root, retained), steps).log)
  {
    if steps != [] {
      var init, step := steps[..|steps| - 1], steps[|steps| - 1];
      FinalizingIsOneChain(t, w, root, retained, init);
      InitialInv(t, w, root, retained);
      RunKeeps(t, Initial(t, w, root, retained), init);
      StepOneChain(t, Run(t, Initial(t, w, root, retained), init), step);
    }
  }

  lemma LogUnchanged(t: Tree, s: State, step: Step)
    requires Target(s, step) == []
    requires step.Commit? && step.i in s.tasks ==> s.tasks[step.i].chain != []
    ensures Next(t, s, step).log == s.log
  {
  }

  /** An anchored overlay shows the state after its block, on any base from the anchor
      up to the block. */
  lemma AnchoredView(t: Tree, w: World, log: seq<Digest>, d: Digest, overlay: ChangeSet)
    requires WellFormed(t) && SafeTree(t) && OneChain(t, log)
    requires Anchored(t, log, d, overlay) && IsAncestor(t, Tip(t, log), d)
    ensures Apply(Replay(w, ChangesAlong(t, log)), overlay) == WorldAt(t, w, d)
  {
    var a :| IsAnchor(t, log, d, overlay, a);
    var g, tip := t.genesis, Tip(t, log);
    if a == g {
      GenesisAncestor(t, tip);
    } else {
      OnPathIsAncestor(t, g, a, tip);
    }
    GenesisAncestor(t, a);
    GenesisAncestor(t, tip);
    BetweenSplit(t, g, a, tip);
    BetweenSplit(t, a, tip, d);
    BetweenSplit(t, g, tip, d);
    ShownFrom(t, w, Between(t, g, a), Between(t, a, tip), Between(t, tip, d));
    assert Between(t, g, d) == Between(t, g, a) + Between(t, a, tip) + Between(t, tip, d);
    WorldAtReplays(t, w, d);
  }

  lemma ShownFrom(t: Tree, w: World, under: seq<Digest>, below: seq<Digest>, above: seq<Digest>)
    requires ChainSafe(ChangesAlong(t, below + above))
    ensures Apply(Replay(w, ChangesAlong(t, under + below)), MergeAll(ChangesAlong(t, below + above)))
      == Replay(w, ChangesAlong(t, under + below + above))
  {
    ChangesAlongConcat(t, under, below);
    ChangesAlongConcat(t, below, above);
    ChangesAlongConcat(t, under + below, above);
    ShownOver(w, ChangesAlong(t, under), ChangesAlong(t, below), ChangesAlong(t, above));
  }

  lemma ShownOver(w: World, under: seq<ChangeSet>, below: seq<ChangeSet>, above: seq<ChangeSet>)
    requires ChainSafe(below + above)
    ensures Apply(Replay(w, under + below), MergeAll(below + above)) == Replay(w, under + below + above)
  {
    calc {
      Apply(Replay(w, under + below), MergeAll(below + above));
      { ReplayConcat(w, under, below); }
      Apply(Replay(Replay(w, under), below), MergeAll(below + above));
      { assert (below + above)[..|below|] == below;
        OverlayOnAdvancedBase(Replay(w, under), below + above, |below|); }
      Replay(Replay(w, under), below + above);
      { ReplayConcat(w, under, below + above); }
      Replay(w, under + (below + above));
      { assert under + (below + above) == under + below + above; }
      Replay(w, under + below + above);
    }
  }

  /** Snapshot isolation under a moving base. After any run whose commits so far form one
      chain, every snapshot at or above the tip, and every parent an execution captured,
      shows exactly the state after its block: before, during and after the commits and
      compactions that happened meanwhile. */
  lemma ViewsAreExact(t: Tree, w: World, root: Root, retained: nat, steps: seq<Step>)
    requires WellFormed(t) && SafeTree(t)
    requires OneChain(t, Run(t, Initial(t, w, root, retained), steps).log)
    ensures var s := Run(t, Initial(t, w, root, retained), steps);
      && (forall d <- s.store.snapshots :: IsAncestor(t, Tip(t, s.log), d) ==>
        Apply(s.base, s.store.snapshots[d].overlay) == WorldAt(t, w, d))
      && (forall e <- s.executions :: IsAncestor(t, Tip(t, s.log), t.parent(s.executions[e].block)) ==>
        Apply(s.base, s.executions[e].parent.overlay) == WorldAt(t, w, t.parent(s.executions[e].block)))
  {
    var s := Run(t, Initial(t, w, root, retained), steps);
    RunViews(t, w, root, retained, steps);
    forall d <- s.store.snapshots | IsAncestor(t, Tip(t, s.log), d)
      ensures Apply(s.base, s.store.snapshots[d].overlay) == WorldAt(t, w, d)
    {
      AnchoredView(t, w, s.log, d, s.store.snapshots[d].overlay);
    }
    forall e <- s.executions | IsAncestor(t, Tip(t, s.log), t.parent(s.executions[e].block))
      ensures Apply(s.base, s.executions[e].parent.overlay) == WorldAt(t, w, t.parent(s.executions[e].block))
    {
      AnchoredView(t, w, s.log, t.parent(s.executions[e].block), s.executions[e].parent.overlay);
    }
  }

  /** The blocks carry the changes a deterministic executor finds on the state before
      them. */
  ghost predicate ProducedBy(t: Tree, w: World, exec: (World, Digest) -> ChangeSet)
    requires WellFormed(t)
  {
    forall d: Digest {:trigger t.parent(d)} :: d != t.genesis ==> t.changes(d) == exec(WorldAt(t, w, t.parent(d)), d)
  }

  /** Executing a block on the parent it captured finds the block's changes, however far
      the shared base has moved since the capture. */
  lemma ExecutionIsReproducible(t: Tree, w: World, root: Root, retained: nat, steps: seq<Step>, e: nat, exec: (World, Digest) -> ChangeSet)
    requires WellFormed(t) && SafeTree(t) && ProducedBy(t, w, exec)
    requires var s := Run(t, Initial(t, w, root, retained), steps);
      && OneChain(t, s.log) && e in s.executions
      && IsAncestor(t, Tip(t, s.log), t.parent(s.executions[e].block))
    ensures var s := Run(t, Initial(t, w, root, retained), steps);
      var x := s.executions[e];
      exec(Apply(s.base, x.parent.overlay), x.block) == t.changes(x.block)
  {
    ViewsAreExact(t, w, root, retained, steps);
    RunViews(t, w, root, retained, steps);
  }

  /** Two nodes that hold a snapshot of the same block carry the same root, whatever each
      of them inserted, persisted, compacted or evicted, and in which order. */
  lemma RootsIgnoreSchedule(t: Tree, w: World, root: Root, n1: nat, n2: nat, steps1: seq<Step>, steps2: seq<Step>, d: Digest)
    requires WellFormed(t)
    requires d in Run(t, Initial(t, w, root, n1), steps1).store.snapshots
    requires d in Run(t, Initial(t, w, root, n2), steps2).store.snapshots
    ensures Run(t, Initial(t, w, root, n1), steps1).store.snapshots[d].root
      == Run(t, Initial(t, w, root, n2), steps2).store.snapshots[d].root == RootAt(t, root, d)
  {
    RunViews(t, w, root, n1, steps1);
    RunViews(t, w, root, n2, steps2);
  }

  /** With commits on one chain, the root of a snapshot and the state it shows go
      together: both are those of the block, in every run. */
  lemma SameBlockSameView(t: Tree, w: World, root: Root, n1: nat, n2: nat, steps1: seq<Step>, steps2: seq<Step>, d: Digest)
    requires WellFormed(t) && SafeTree(t)
    requires var s1 := Run(t, Initial(t, w, root, n1), steps1);
      OneChain(t, s1.log) && d in s1.store.snapshots && IsAncestor(t, Tip(t, s1.log), d)
    requires var s2 := Run(t, Initial(t, w, root, n2), steps2);
      OneChain(t, s2.log) && d in s2.store.snapshots && IsAncestor(t, Tip(t, s2.log), d)
    ensures var s1, s2 := Run(t, Initial(t, w, root, n1), steps1), Run(t, Initial(t, w, root, n2), steps2);
      var o1, o2 := s1.store.snapshots[d].overlay, s2.store.snapshots[d].overlay;
      Apply(s1.base, o1) == Apply(s2.base, o2)
      && forall x: Address, k: Slot :: OverlaySlot(s1.base, o1, x, k) == OverlaySlot(s2.base, o2, x, k)
  {
    ViewsAreExact(t, w, root, n1, steps1);
    ViewsAreExact(t, w, root, n2, steps2);
    var s1, s2 := Run(t, Initial(t, w, root, n1), steps1), Run(t, Initial(t, w, root, n2), steps2);
    var o1, o2 := s1.store.snapshots[d].overlay, s2.store.snapshots[d].overlay;
    forall x: Address, k: Slot ensures OverlaySlot(s1.base, o1, x, k) == OverlaySlot(s2.base, o2, x, k) {
      OverlayReadsApplied(s1.base, o1, x);
      OverlayReadsApplied(s2.base, o2, x);
    }
  }
}
