/** Which transactions a proposal must leave out: those of its unpersisted ancestors. */
module Proposal {
  import opened Prelude
  import opened StateChanges
  import opened SnapshotStore
  import Ledger

  /** The transactions of the blocks of a chain. */
  function TxIdsOf(snapshots: map<Digest, Snapshot>, chain: seq<Digest>): (r: set<TxId>)
    requires forall d <- chain :: d in snapshots
  {
    set d, t | d in chain && t in snapshots[d].txIds :: t
  }

  /** The transactions of all unpersisted blocks up to `d`, or the missing ancestor. */
  ghost function PendingTxIds(s: Store, rank: Digest -> nat, d: Digest): (r: Result<set<TxId>, Digest>) {
    match Unpersisted(s, rank, d)
    case Err(e) => Err(e)
    case Ok(chain) => Ok(TxIdsOf(s.snapshots, chain))
  }

  ghost function Union(ids: set<TxId>, r: Result<set<TxId>, Digest>): (q: Result<set<TxId>, Digest>) {
    match r
    case Err(e) => Err(e)
    case Ok(more) => Ok(ids + more)
  }

  /** One step back along the chain. */
  lemma PendingStep(s: Store, rank: Digest -> nat, d: Digest)
    requires Acyclic(s.snapshots, rank) && d !in s.persisted && d in s.snapshots
    ensures PendingTxIds(s, rank, d) == match s.snapshots[d].parent
      case None => Ok(s.snapshots[d].txIds)
      case Some(p) => Union(s.snapshots[d].txIds, PendingTxIds(s, rank, p))
  {
    if s.snapshots[d].parent.Some? {
      var r := Unpersisted(s, rank, s.snapshots[d].parent.value);
      if r.Ok? {
        assert TxIdsOf(s.snapshots, r.value + [d]) == s.snapshots[d].txIds + TxIdsOf(s.snapshots, r.value);
      }
    } else {
      assert TxIdsOf(s.snapshots, [d]) == s.snapshots[d].txIds;
    }
  }

  /** Walk back from the parent to a persisted block. A gap is reported, never skipped,
      and the walk ends because parents have smaller ranks. */
  method CollectPendingTxIds(store: InMemorySnapshotStore, from: Digest, ghost rank: Digest -> nat) returns (r: Result<set<TxId>, Digest>)
    requires Acyclic(store.snapshots, rank)
    ensures r == PendingTxIds(store.Model(), rank, from)
  {
    var excluded: set<TxId> := {};
    var current: Option<Digest> := Some(from);
    ghost var s := store.Model();
    UnionNothing(PendingTxIds(s, rank, from));
    while current.Some?
      invariant PendingTxIds(s, rank, from)
        == if current.None? then Ok(excluded) else Union(excluded, PendingTxIds(s, rank, current.value))
      decreases if current.None? then 0 else rank(current.value) + 1
    {
      var d := current.value;
      if d in store.persisted {
        assert TxIdsOf(s.snapshots, []) == {};
        break;
      }
      if d !in store.snapshots {
        return Err(d);
      }
      PendingStep(s, rank, d);
      ghost var more := excluded + store.snapshots[d].txIds;
      if store.snapshots[d].parent.Some? {
        UnionMore(excluded, store.snapshots[d].txIds, PendingTxIds(s, rank, store.snapshots[d].parent.value));
      }
      excluded := excluded + store.snapshots[d].txIds;
      current := store.snapshots[d].parent;
    }
    r := Ok(excluded);
  }

  lemma UnionNothing(r: Result<set<TxId>, Digest>)
    ensures Union({}, r) == r
  {
    if r.Ok? {
      assert {} + r.value == r.value;
    }
  }

  lemma UnionMore(a: set<TxId>, b: set<TxId>, r: Result<set<TxId>, Digest>)
    ensures Union(a, Union(b, r)) == Union(a + b, r)
  {
    if r.Ok? {
      assert a + (b + r.value) == a + b + r.value;
    }
  }

  // ----- the ledger's own walk -----

  /** The same walk, but a gap ends it silently. */
  ghost function AvailableTxIds(s: Store, rank: Digest -> nat, d: Digest): (r: set<TxId>)
    decreases rank(d)
  {
    if d in s.persisted || d !in s.snapshots then {}
    else
      var x := s.snapshots[d];
      if x.parent.Some? && rank(x.parent.value) < rank(d) then x.txIds + AvailableTxIds(s, rank, x.parent.value) else x.txIds
  }

  method CollectAncestorTxIds(store: InMemorySnapshotStore, parent: Option<Digest>, ghost rank: Digest -> nat) returns (excluded: set<TxId>)
    requires Acyclic(store.snapshots, rank)
    ensures excluded == if parent.None? then {} else AvailableTxIds(store.Model(), rank, parent.value)
  {
    excluded := {};
    var current := parent;
    ghost var s := store.Model();
    while current.Some?
      invariant (if parent.None? then {} else AvailableTxIds(s, rank, parent.value))
        == excluded + (if current.None? then {} else AvailableTxIds(s, rank, current.value))
      decreases if current.None? then 0 else rank(current.value) + 1
    {
      var d := current.value;
      if d in store.persisted || d !in store.snapshots {
        break;
      }
      excluded := excluded + store.snapshots[d].txIds;
      current := store.snapshots[d].parent;
    }
  }

  /** Both walks exclude the same transactions as long as the chain has no gap. */
  lemma {:induction false} WalksAgree(s: Store, rank: Digest -> nat, d: Digest)
    requires Acyclic(s.snapshots, rank) && PendingTxIds(s, rank, d).Ok?
    ensures AvailableTxIds(s, rank, d) == PendingTxIds(s, rank, d).value
    decreases rank(d)
  {
    if d in s.persisted {
      assert TxIdsOf(s.snapshots, []) == {};
    } else {
      PendingStep(s, rank, d);
      if s.snapshots[d].parent.Some? {
        WalksAgree(s, rank, s.snapshots[d].parent.value);
      }
    }
  }

  /** The blocks that walk reaches, oldest first. */
  ghost function Reached(s: Store, rank: Digest -> nat, d: Digest): (r: seq<Digest>)
    ensures forall b <- r :: b in s.snapshots
    decreases rank(d)
  {
    if d in s.persisted || d !in s.snapshots then []
    else
      var p := s.snapshots[d].parent;
      (if p.Some? && rank(p.value) < rank(d) then Reached(s, rank, p.value) else []) + [d]
  }

  lemma {:induction false} AvailableIsReached(s: Store, rank: Digest -> nat, d: Digest)
    ensures AvailableTxIds(s, rank, d) == TxIdsOf(s.snapshots, Reached(s, rank, d))
    decreases rank(d)
  {
    if d !in s.persisted && d in s.snapshots {
      var p := s.snapshots[d].parent;
      if p.Some? && rank(p.value) < rank(d) {
        AvailableIsReached(s, rank, p.value);
      }
    }
  }

  /** A store that has everything `s` has and all that is missing below `d`. */
  ghost predicate Completes(s: Store, full: Store, rank: Digest -> nat, d: Digest) {
    && full.persisted == s.persisted
    && (forall b <- s.snapshots :: b in full.snapshots && full.snapshots[b] == s.snapshots[b])
    && Acyclic(full.snapshots, rank)
    && PendingTxIds(full, rank, d).Ok?
  }

  /** The blocks the walk does not reach are the older part of the real chain; there are
      none exactly when there is no gap. */
  lemma {:induction false} ReachedIsNewerPart(s: Store, full: Store, rank: Digest -> nat, d: Digest) returns (missed: seq<Digest>)
    requires Completes(s, full, rank, d)
    ensures Unpersisted(full, rank, d).value == missed + Reached(s, rank, d)
    ensures missed == [] <==> PendingTxIds(s, rank, d).Ok?
    decreases rank(d)
  {
    if d in s.persisted {
      missed := [];
    } else if d !in s.snapshots {
      missed := Unpersisted(full, rank, d).value;
      assert missed + [] == missed;
    } else if s.snapshots[d].parent.None? {
      missed := [];
    } else {
      var p := s.snapshots[d].parent.value;
      assert full.snapshots[d] == s.snapshots[d];
      missed := ReachedIsNewerPart(s, full, rank, p);
      assert missed + Reached(s, rank, p) + [d] == missed + (Reached(s, rank, p) + [d]);
    }
  }

  /** What the silent walk misses: it excludes at most what it should, and exactly that,
      if and only if the blocks it does not reach hold no further transaction. */
  lemma SilentWalkExactIff(s: Store, full: Store, rank: Digest -> nat, d: Digest) returns (missed: seq<Digest>)
    requires Completes(s, full, rank, d)
    ensures Unpersisted(full, rank, d).value == missed + Reached(s, rank, d)
    ensures missed == [] <==> PendingTxIds(s, rank, d).Ok?
    ensures forall b <- missed :: b in full.snapshots
    ensures AvailableTxIds(s, rank, d) <= PendingTxIds(full, rank, d).value
    ensures AvailableTxIds(s, rank, d) == PendingTxIds(full, rank, d).value
      <==> TxIdsOf(full.snapshots, missed) <= AvailableTxIds(s, rank, d)
  {
    missed := ReachedIsNewerPart(s, full, rank, d);
    var reached := Reached(s, rank, d);
    AvailableIsReached(s, rank, d);
    assert forall b <- missed + reached :: b in full.snapshots;
    assert forall b <- missed :: b in missed + reached;
    SplitTxIds(full.snapshots, missed, reached);
    assert TxIdsOf(full.snapshots, reached) == TxIdsOf(s.snapshots, reached);
  }

  /** A snapshot without parent in the first gap completes the chain. */
  lemma {:induction false} FillGap(s: Store, rank: Digest -> nat, d: Digest, plug: Snapshot) returns (gap: Digest)
    requires Acyclic(s.snapshots, rank) && Unpersisted(s, rank, d).Err? && plug.parent == None
    ensures gap !in s.snapshots && gap !in s.persisted
    ensures var r := Unpersisted(s.(snapshots := s.snapshots[gap := plug]), rank, d); r.Ok? && gap in r.value
    decreases rank(d)
  {
    if d !in s.snapshots {
      gap := d;
    } else {
      var p := s.snapshots[d].parent.value;
      gap := FillGap(s, rank, p, plug);
      var full := s.(snapshots := s.snapshots[gap := plug]);
      var below := Unpersisted(full, rank, p).value;
      assert full.snapshots[d] == s.snapshots[d];
      assert gap in below + [d];
    }
  }

  /** What a caller can check: the silent walk excludes what it should, whatever the
      missing blocks hold, if and only if the reporting walk meets no gap. */
  lemma SilentWalkSafeIff(s: Store, rank: Digest -> nat, d: Digest)
    requires Acyclic(s.snapshots, rank)
    ensures (forall full: Store :: Completes(s, full, rank, d) ==>
        AvailableTxIds(s, rank, d) == PendingTxIds(full, rank, d).value)
      <==> PendingTxIds(s, rank, d).Ok?
  {
    if PendingTxIds(s, rank, d).Ok? {
      forall full: Store | Completes(s, full, rank, d)
        ensures AvailableTxIds(s, rank, d) == PendingTxIds(full, rank, d).value
      {
        var missed := SilentWalkExactIff(s, full, rank, d);
        assert TxIdsOf(full.snapshots, missed) == {};
      }
    } else {
      var extra := Unused(AvailableTxIds(s, rank, d));
      var plug := Snapshot(None, map[], 0, map[], {extra});
      var gap := FillGap(s, rank, d, plug);
      var full := s.(snapshots := s.snapshots[gap := plug]);
      assert full.snapshots[gap].txIds == {extra};
      assert Completes(s, full, rank, d);
      assert extra in PendingTxIds(full, rank, d).value;
    }
  }

  lemma SplitTxIds(snapshots: map<Digest, Snapshot>, a: seq<Digest>, b: seq<Digest>)
    requires forall d <- a + b :: d in snapshots
    requires (forall d <- a :: d in snapshots) && (forall d <- b :: d in snapshots)
    ensures TxIdsOf(snapshots, a + b) == TxIdsOf(snapshots, a) + TxIdsOf(snapshots, b)
  {
  }

  /** Block 2 is there, its parent 1 is not: the silent walk forgets transaction 7 of the
      parent, while the other one reports block 1. */
  lemma SilentWalkForgets(rank: Digest -> nat)
    requires rank(0) < rank(1) < rank(2)
    ensures var top := Snapshot(Some(1), map[], 0, map[], {5});
      var mid := Snapshot(Some(0), map[], 0, map[], {7});
      var s, full := Store(map[2 := top], {0}, {}, [0], 256), Store(map[1 := mid, 2 := top], {0}, {}, [0], 256);
      && Completes(s, full, rank, 2)
      && PendingTxIds(s, rank, 2) == Err(1)
      && 7 !in AvailableTxIds(s, rank, 2)
      && PendingTxIds(full, rank, 2).value == {5, 7}
  {
    var top := Snapshot(Some(1), map[], 0, map[], {5});
    var mid := Snapshot(Some(0), map[], 0, map[], {7});
    var s, full := Store(map[2 := top], {0}, {}, [0], 256), Store(map[1 := mid, 2 := top], {0}, {}, [0], 256);
    assert full.snapshots[2] == top && full.snapshots[1] == mid && s.snapshots[2] == top;
    assert PendingTxIds(full, rank, 0) == Ok({}) by {
      assert TxIdsOf(full.snapshots, []) == {};
    }
    PendingStep(full, rank, 1);
    PendingStep(full, rank, 2);
    assert {5} + ({7} + {}) == {5, 7};
    PendingStep(s, rank, 2);
    assert AvailableTxIds(s, rank, 1) == {};
    assert AvailableTxIds(s, rank, 2) == {5} + {};
  }

  // ----- growing a chain -----

  /** A proposal under way: its parent and the transactions it found excluded. */
  datatype Plan = Plan(parent: Digest, excluded: set<TxId>)

  datatype Builder = Builder(store: Store, plans: map<nat, Plan>)

  datatype Step =
    | Collect(i: nat, parent: Digest)
    | Propose(i: nat, digest: Digest, snapshot: Snapshot)
    | Persist(target: Digest)

  /** The walk of a proposal; a gap aborts it. */
  ghost function AfterCollect(b: Builder, rank: Digest -> nat, i: nat, p: Digest): (r: Builder) {
    if p !in b.store.snapshots then b
    else
      match PendingTxIds(b.store, rank, p)
      case Err(_) => b
      case Ok(excluded) => b.(plans := b.plans[i := Plan(p, excluded)])
  }

  /** A fresh block on the planned parent; the mempool handed out no excluded
      transaction. */
  ghost predicate MayPropose(b: Builder, rank: Digest -> nat, i: nat, d: Digest, x: Snapshot) {
    && i in b.plans
    && d !in b.store.snapshots && d !in b.store.persisted
    && x.parent == Some(b.plans[i].parent) && rank(b.plans[i].parent) < rank(d)
    && x.txIds !! b.plans[i].excluded
  }

  ghost function Inserted(s: Store, d: Digest, x: Snapshot): (r: Store) {
    s.(snapshots := s.snapshots[d := x])
  }

  /** Proposals collect and insert in two steps; persisting compacts, marks and evicts a
      chain at any time in between. */
  ghost function Next(b: Builder, rank: Digest -> nat, step: Step): (r: Builder) {
    match step
    case Collect(i, p) => AfterCollect(b, rank, i, p)
    case Propose(i, d, x) =>
      if MayPropose(b, rank, i, d, x) then Builder(Inserted(b.store, d, x), b.plans - {i}) else b
    case Persist(d) =>
      match Unpersisted(b.store, rank, d)
      case Err(_) => b
      case Ok(chain) => b.(store := Ledger.Finish(b.store, chain, true).0)
  }

  ghost function Run(b: Builder, rank: Digest -> nat, steps: seq<Step>): (r: Builder) {
    if steps == [] then b else Next(Run(b, rank, steps[..|steps| - 1]), rank, steps[|steps| - 1])
  }

  // ----- no transaction repeats -----

  /** No two blocks of the chain share a transaction. */
  ghost predicate NoRepeats(snapshots: map<Digest, Snapshot>, chain: seq<Digest>)
    requires forall d <- chain :: d in snapshots
  {
    forall i, j :: 0 <= i < j < |chain| ==> snapshots[chain[i]].txIds !! snapshots[chain[j]].txIds
  }

  ghost predicate ChainOk(s: Store, rank: Digest -> nat, d: Digest) {
    var r := Unpersisted(s, rank, d);
    r.Ok? && NoRepeats(s.snapshots, r.value)
  }

  /** A plan still excludes everything pending below it. */
  ghost predicate PlanOk(s: Store, rank: Digest -> nat, plan: Plan) {
    ChainOk(s, rank, plan.parent) && TxIdsOf(s.snapshots, Unpersisted(s, rank, plan.parent).value) <= plan.excluded
  }

  /** Every block with a snapshot has a complete unpersisted chain in which no transaction
      occurs twice. */
  ghost predicate StoreOk(s: Store, rank: Digest -> nat) {
    Acyclic(s.snapshots, rank) && forall d <- s.snapshots :: ChainOk(s, rank, d)
  }

  ghost predicate Inv(b: Builder, rank: Digest -> nat) {
    StoreOk(b.store, rank) && forall i <- b.plans :: PlanOk(b.store, rank, b.plans[i])
  }

  /** Adding a fresh block leaves the complete chains alone. */
  lemma {:induction false} FreshKeepsChain(s: Store, rank: Digest -> nat, d: Digest, x: Snapshot, e: Digest)
    requires d !in s.snapshots && d !in s.persisted && Unpersisted(s, rank, e).Ok?
    ensures Unpersisted(Inserted(s, d, x), rank, e) == Unpersisted(s, rank, e)
    decreases rank(e)
  {
    if e !in s.persisted && s.snapshots[e].parent.Some? {
      FreshKeepsChain(s, rank, d, x, s.snapshots[e].parent.value);
    }
  }

  lemma FreshKeepsOk(s: Store, rank: Digest -> nat, d: Digest, x: Snapshot, e: Digest)
    requires d !in s.snapshots && d !in s.persisted && ChainOk(s, rank, e)
    ensures ChainOk(Inserted(s, d, x), rank, e)
    ensures var chain := Unpersisted(s, rank, e).value;
      (forall c <- chain :: c in Inserted(s, d, x).snapshots)
      && TxIdsOf(Inserted(s, d, x).snapshots, chain) == TxIdsOf(s.snapshots, chain)
  {
    FreshKeepsChain(s, rank, d, x, e);
  }

  lemma NoRepeatsAppend(snapshots: map<Digest, Snapshot>, chain: seq<Digest>, d: Digest)
    requires d in snapshots && (forall c <- chain :: c in snapshots)
    requires NoRepeats(snapshots, chain) && snapshots[d].txIds !! TxIdsOf(snapshots, chain)
    ensures NoRepeats(snapshots, chain + [d])
  {
    forall i | 0 <= i < |chain| ensures snapshots[chain[i]].txIds !! snapshots[d].txIds {
      assert snapshots[chain[i]].txIds <= TxIdsOf(snapshots, chain);
    }
  }

  lemma ProposeNew(s: Store, rank: Digest -> nat, plan: Plan, d: Digest, x: Snapshot)
    requires d !in s.snapshots && d !in s.persisted && PlanOk(s, rank, plan)
    requires x.parent == Some(plan.parent) && rank(plan.parent) < rank(d) && x.txIds !! plan.excluded
    ensures ChainOk(Inserted(s, d, x), rank, d)
  {
    var chain := Unpersisted(s, rank, plan.parent).value;
    FreshKeepsChain(s, rank, d, x, plan.parent);
    FreshKeepsOk(s, rank, d, x, plan.parent);
    NoRepeatsAppend(Inserted(s, d, x).snapshots, chain, d);
  }

  lemma ProposeKeeps(b: Builder, rank: Digest -> nat, i: nat, d: Digest, x: Snapshot)
    requires Inv(b, rank) && MayPropose(b, rank, i, d, x)
    ensures Inv(Builder(Inserted(b.store, d, x), b.plans - {i}), rank)
  {
    var s := b.store;
    ProposeNew(s, rank, b.plans[i], d, x);
    forall e <- s.snapshots ensures ChainOk(Inserted(s, d, x), rank, e) {
      FreshKeepsOk(s, rank, d, x, e);
    }
    forall j <- b.plans ensures PlanOk(Inserted(s, d, x), rank, b.plans[j]) {
      assert PlanOk(s, rank, b.plans[j]);
      FreshKeepsChain(s, rank, d, x, b.plans[j].parent);
      FreshKeepsOk(s, rank, d, x, b.plans[j].parent);
    }
  }

  /** More marks, and no unpersisted snapshot lost or given other transactions. */
  ghost predicate Advances(s: Store, r: Store) {
    && s.persisted <= r.persisted
    && r.snapshots.Keys <= s.snapshots.Keys
    && (forall d <- s.snapshots :: d !in r.persisted ==> d in r.snapshots)
    && (forall d <- r.snapshots ::
      r.snapshots[d].parent == s.snapshots[d].parent && r.snapshots[d].txIds == s.snapshots[d].txIds)
  }

  /** Persisting cuts unpersisted chains from below. */
  lemma {:induction false} AdvanceCuts(s: Store, r: Store, rank: Digest -> nat, d: Digest) returns (k: nat)
    requires Advances(s, r) && Unpersisted(s, rank, d).Ok?
    ensures Unpersisted(r, rank, d).Ok? && k <= |Unpersisted(s, rank, d).value|
    ensures Unpersisted(r, rank, d).value == Unpersisted(s, rank, d).value[k..]
    decreases rank(d)
  {
    var chain := Unpersisted(s, rank, d).value;
    if d in r.persisted {
      k := |chain|;
    } else {
      match s.snapshots[d].parent
      case None => k := 0;
      case Some(p) =>
        k := AdvanceCuts(s, r, rank, p);
        var init := Unpersisted(s, rank, p).value;
        assert (init + [d])[k..] == init[k..] + [d];
    }
  }

  lemma CutKeeps(before: map<Digest, Snapshot>, after: map<Digest, Snapshot>, chain: seq<Digest>, k: nat)
    requires k <= |chain| && (forall d <- chain :: d in before) && (forall d <- chain[k..] :: d in after)
    requires NoRepeats(before, chain) && forall d <- after :: d in before && after[d].txIds == before[d].txIds
    ensures NoRepeats(after, chain[k..]) && TxIdsOf(after, chain[k..]) <= TxIdsOf(before, chain)
  {
    forall i, j | 0 <= i < j < |chain[k..]| ensures after[chain[k..][i]].txIds !! after[chain[k..][j]].txIds {
      assert chain[k..][i] == chain[k + i] && chain[k..][j] == chain[k + j];
    }
  }

  lemma AdvanceKeepsChain(s: Store, r: Store, rank: Digest -> nat, d: Digest)
    requires Advances(s, r) && ChainOk(s, rank, d)
    ensures ChainOk(r, rank, d)
    ensures TxIdsOf(r.snapshots, Unpersisted(r, rank, d).value) <= TxIdsOf(s.snapshots, Unpersisted(s, rank, d).value)
  {
    var k := AdvanceCuts(s, r, rank, d);
    CutKeeps(s.snapshots, r.snapshots, Unpersisted(s, rank, d).value, k);
  }

  lemma AdvanceKeeps(b: Builder, r: Store, rank: Digest -> nat)
    requires Inv(b, rank) && Advances(b.store, r)
    ensures Inv(b.(store := r), rank)
  {
    forall d <- r.snapshots ensures ChainOk(r, rank, d) {
      AdvanceKeepsChain(b.store, r, rank, d);
    }
    forall i <- b.plans ensures PlanOk(r, rank, b.plans[i]) {
      assert PlanOk(b.store, rank, b.plans[i]);
      AdvanceKeepsChain(b.store, r, rank, b.plans[i].parent);
    }
  }

  lemma PersistAdvances(s: Store, chain: seq<Digest>)
    requires forall d <- chain :: d in s.snapshots
    ensures Advances(s, Ledger.Finish(s, chain, true).0)
  {
    var n := Ledger.FirstMissing(s.snapshots, chain);
    assert n == |chain| && chain[..n] == chain;
    var compacted := s.(persisting := s.persisting - Elems(chain), snapshots := Ledger.Compacted(s.snapshots, chain));
    MarkedIs(compacted, chain);
    EvictedKeeps(Marked(compacted, chain));
  }

  lemma NextKeeps(b: Builder, rank: Digest -> nat, step: Step)
    requires Inv(b, rank)
    ensures Inv(Next(b, rank, step), rank)
  {
    match step
    case Collect(i, p) => assert p in b.store.snapshots ==> ChainOk(b.store, rank, p);
    case Propose(i, d, x) =>
      if MayPropose(b, rank, i, d, x) {
        ProposeKeeps(b, rank, i, d, x);
      }
    case Persist(d) =>
      var r := Unpersisted(b.store, rank, d);
      if r.Ok? {
        PersistAdvances(b.store, r.value);
        AdvanceKeeps(b, Ledger.Finish(b.store, r.value, true).0, rank);
      }
  }

  function Genesis(genesis: Digest, root: Root, retained: nat): (b: Builder) {
    Builder(Store(map[genesis := Snapshot(None, map[], root, map[], {})], {genesis}, {}, [genesis], retained), map[])
  }

  lemma GenesisInv(genesis: Digest, root: Root, retained: nat, rank: Digest -> nat)
    ensures Inv(Genesis(genesis, root, retained), rank)
  {
  }

  lemma {:induction false} RunKeeps(b: Builder, rank: Digest -> nat, steps: seq<Step>)
    requires Inv(b, rank)
    ensures Inv(Run(b, rank, steps), rank)
  {
    if steps != [] {
      RunKeeps(b, rank, steps[..|steps| - 1]);
      NextKeeps(Run(b, rank, steps[..|steps| - 1]), rank, steps[|steps| - 1]);
    }
  }

  /** Along all chains grown from genesis by proposals while persistence advances: no
      transaction occurs twice among the unpersisted ancestors of a block, and no walk
      meets a gap. */
  lemma GrownChainsDoNotRepeat(genesis: Digest, root: Root, retained: nat, rank: Digest -> nat, steps: seq<Step>)
    ensures var store := Run(Genesis(genesis, root, retained), rank, steps).store;
      forall d <- store.snapshots :: ChainOk(store, rank, d)
  {
    GenesisInv(genesis, root, retained, rank);
    RunKeeps(Genesis(genesis, root, retained), rank, steps);
  }
}
