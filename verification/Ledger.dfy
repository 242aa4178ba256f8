/** The ledger view over the snapshot store: inserting executed blocks and the two
    locked phases of persisting a chain, with the database commit between them. */
module Ledger {
  import opened Prelude
  import opened StateChanges
  import opened SnapshotStore

  /** What the first phase decides: a broken chain, nothing to do, or a commit to run. */
  datatype Begun = Missing(digest: Digest) | Idle | Started(chain: seq<Digest>, changes: ChangeSet)

  datatype LedgerError = CommitFailed | SnapshotNotFound(digest: Digest)

  ghost predicate Free(s: Store, chain: seq<Digest>) {
    forall c <- chain :: c !in s.persisted && c !in s.persisting
  }

  ghost function Begin(s: Store, rank: Digest -> nat, d: Digest): (r: (Store, Begun)) {
    match Unpersisted(s, rank, d)
    case Err(e) => (s, Missing(e))
    case Ok(chain) =>
      if chain == [] || !Free(s, chain) then (s, Idle)
      else (s.(persisting := s.persisting + Elems(chain)), Started(chain, MergeAll(ChangesOf(s.snapshots, chain))))
  }

  /** The snapshots of a committed chain, reading straight from the base. */
  function Compacted(snapshots: map<Digest, Snapshot>, chain: seq<Digest>): (r: map<Digest, Snapshot>) {
    map d | d in snapshots ::
      if d in chain then snapshots[d].(overlay := map[], changes := map[]) else snapshots[d]
  }

  function FirstMissing(snapshots: map<Digest, Snapshot>, chain: seq<Digest>): (r: nat)
    ensures r <= |chain|
    ensures forall k :: 0 <= k < r ==> chain[k] in snapshots
    ensures r < |chain| ==> chain[r] !in snapshots
  {
    if chain == [] || chain[0] !in snapshots then 0 else 1 + FirstMissing(snapshots, chain[1..])
  }

  ghost function Finish(s: Store, chain: seq<Digest>, ok: bool): (r: (Store, Result<bool, LedgerError>)) {
    var cleared := s.(persisting := s.persisting - Elems(chain));
    var n := FirstMissing(s.snapshots, chain);
    var compacted := cleared.(snapshots := Compacted(s.snapshots, chain[..n]));
    if !ok then (cleared, Err(CommitFailed))
    else if n < |chain| then (compacted, Err(SnapshotNotFound(chain[n])))
    else (Evicted(Marked(compacted, chain)), Ok(true))
  }

  lemma {:induction false} FirstMissingIs(snapshots: map<Digest, Snapshot>, chain: seq<Digest>, n: nat)
    requires n <= |chain| && forall k :: 0 <= k < n ==> chain[k] in snapshots
    requires n < |chain| ==> chain[n] !in snapshots
    ensures FirstMissing(snapshots, chain) == n
  {
    if n > 0 {
      FirstMissingIs(snapshots, chain[1..], n - 1);
    }
  }

  class LedgerView {
    const snapshots: InMemorySnapshotStore
    var head: Digest

    constructor (genesis: Digest, root: Root, maxRetained: nat)
      ensures fresh(snapshots) && head == genesis
      ensures snapshots.Model() == Store(
        map[genesis := Snapshot(None, map[], root, map[], {})], {genesis}, {}, [genesis], maxRetained)
    {
      var store := new InMemorySnapshotStore(maxRetained);
      store.Insert(genesis, Snapshot(None, map[], root, map[], {}));
      store.MarkPersisted([genesis]);
      snapshots := store;
      head := genesis;
      new;
      assert [genesis][..0] == [];
    }

    method InsertSnapshot(d: Digest, s: Snapshot)
      modifies this, snapshots
      ensures head == d
      ensures snapshots.Model() == old(snapshots.Model()).(snapshots := old(snapshots.snapshots)[d := s])
    {
      snapshots.Insert(d, s);
      head := d;
    }

    /** First locked phase: pick the chain, refuse one that overlaps, mark it in flight. */
    method BeginPersist(digest: Digest, ghost rank: Digest -> nat) returns (r: Begun)
      requires Acyclic(snapshots.snapshots, rank)
      modifies snapshots
      ensures (snapshots.Model(), r) == Begin(old(snapshots.Model()), rank, digest)
    {
      var found := snapshots.ChangesForPersist(digest, rank);
      match found
      case Err(e) =>
        r := Missing(e);
      case Ok((chain, changes)) =>
        if chain == [] {
          return Idle;
        }
        var free := snapshots.CanPersistChain(chain);
        if !free {
          return Idle;
        }
        snapshots.MarkPersistingChain(chain);
        r := Started(chain, changes);
    }

    /** Second locked phase: clear the marks; after a successful commit compact every
        snapshot of the chain, mark it persisted and evict. */
    method FinishPersist(chain: seq<Digest>, ok: bool) returns (r: Result<bool, LedgerError>)
      modifies snapshots
      ensures (snapshots.Model(), r) == Finish(old(snapshots.Model()), chain, ok)
    {
      snapshots.ClearPersistingChain(chain);
      if !ok {
        return Err(CommitFailed);
      }
      ghost var before := snapshots.Model();
      for k := 0 to |chain|
        invariant forall j :: 0 <= j < k ==> chain[j] in before.snapshots
        invariant snapshots.Model() == before.(snapshots := Compacted(before.snapshots, chain[..k]))
      {
        if chain[k] !in snapshots.snapshots {
          FirstMissingIs(before.snapshots, chain, k);
          return Err(SnapshotNotFound(chain[k]));
        }
        var s := snapshots.snapshots[chain[k]];
        snapshots.Insert(chain[k], s.(overlay := map[], changes := map[]));
        assert chain[..k + 1] == chain[..k] + [chain[k]];
      }
      FirstMissingIs(before.snapshots, chain, |chain|);
      snapshots.MarkPersisted(chain);
      var _ := snapshots.EvictPersisted();
      r := Ok(true);
    }
  }
}
