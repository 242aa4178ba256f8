/** The in-memory snapshot store: execution snapshots by digest, the persisted and
    in-flight marks, and the queue that bounds how many persisted snapshots stay in
    memory. */
module SnapshotStore {
  import opened Prelude
  import opened StateChanges

  type Digest = nat
  type Root = nat
  type TxId = nat

  /** `overlay` holds the changes a snapshot layers over the shared live base; `changes`
      are those of its own block. */
  datatype Snapshot = Snapshot(
    parent: Option<Digest>,
    overlay: ChangeSet,
    root: Root,
    changes: ChangeSet,
    txIds: set<TxId>)

  datatype Store = Store(
    snapshots: map<Digest, Snapshot>,
    persisted: set<Digest>,
    persisting: set<Digest>,
    order: seq<Digest>,
    retained: nat)

  /** Parents come before their children, as digests commit to them. */
  ghost predicate Acyclic(snapshots: map<Digest, Snapshot>, rank: Digest -> nat) {
    forall d <- snapshots :: snapshots[d].parent.Some? ==> rank(snapshots[d].parent.value) < rank(d)
  }

  /** The unpersisted chain that ends in `d`, oldest first, or the digest at which it
      breaks off. The test of the ranks always succeeds on an acyclic store. */
  ghost function Unpersisted(s: Store, rank: Digest -> nat, d: Digest): (r: Result<seq<Digest>, Digest>)
    ensures r.Ok? ==> forall c <- r.value :: c in s.snapshots && c !in s.persisted
    decreases rank(d)
  {
    if d in s.persisted then Ok([])
    else if d !in s.snapshots then Err(d)
    else
      match s.snapshots[d].parent
      case None => Ok([d])
      case Some(p) =>
        if rank(d) <= rank(p) then Err(p)
        else
          match Unpersisted(s, rank, p)
          case Err(e) => Err(e)
          case Ok(c) => Ok(c + [d])
  }

  /** The own changes of the blocks of a chain. */
  function ChangesOf(snapshots: map<Digest, Snapshot>, chain: seq<Digest>): (r: seq<ChangeSet>)
    requires forall c <- chain :: c in snapshots
  {
    seq(|chain|, i requires 0 <= i < |chain| => snapshots[chain[i]].changes)
  }

  function Marked(s: Store, ds: seq<Digest>): (r: Store) {
    if ds == [] then s
    else
      var init, d := Marked(s, ds[..|ds| - 1]), ds[|ds| - 1];
      if d in init.persisted then init
      else init.(persisted := init.persisted + {d}, order := init.order + [d])
  }

  lemma {:induction false} MarkedIs(s: Store, ds: seq<Digest>)
    ensures Marked(s, ds) == s.(persisted := s.persisted + Elems(ds), order := Marked(s, ds).order)
  {
    if ds != [] {
      var init := ds[..|ds| - 1];
      MarkedIs(s, init);
      assert ds == init + [ds[|ds| - 1]];
    }
  }

  /** Newly persisted digests queue up for eviction in the order they are marked. */
  lemma {:induction false} MarkedQueues(s: Store, ds: seq<Digest>)
    requires Distinct(ds) && forall d <- ds :: d !in s.persisted
    ensures Marked(s, ds).order == s.order + ds
  {
    if ds == [] {
      assert s.order + [] == s.order;
    } else {
      var init, last := ds[..|ds| - 1], ds[|ds| - 1];
      assert ds == init + [last];
      MarkedQueues(s, init);
      MarkedIs(s, init);
      assert forall i :: 0 <= i < |init| ==> init[i] == ds[i] != last;
    }
  }

  /** Pop the oldest queued digests over the limit and drop their snapshots. */
  function Evicted(s: Store): (r: Store)
    decreases |s.order|
  {
    if |s.order| <= s.retained then s
    else
      var rest := if s.order[0] in s.persisted then s.snapshots - {s.order[0]} else s.snapshots;
      Evicted(s.(snapshots := rest, order := s.order[1..]))
  }

  /** Eviction leaves the newest `retained` queue entries, drops no snapshot that is
      unpersisted or still queued, and changes none. */
  lemma {:induction false} EvictedKeeps(s: Store)
    ensures var r := Evicted(s);
      && r == s.(snapshots := r.snapshots, order := r.order)
      && r.order == s.order[if |s.order| <= s.retained then 0 else |s.order| - s.retained..]
      && r.snapshots.Keys <= s.snapshots.Keys
      && (forall d <- s.snapshots :: d !in s.persisted || d !in s.order ==> d in r.snapshots)
      && (forall d <- r.snapshots :: r.snapshots[d] == s.snapshots[d])
    decreases |s.order|
  {
    if |s.order| > s.retained {
      var rest := if s.order[0] in s.persisted then s.snapshots - {s.order[0]} else s.snapshots;
      EvictedKeeps(s.(snapshots := rest, order := s.order[1..]));
    }
  }

  function Reversed<T>(s: seq<T>): (r: seq<T>)
    ensures |r| == |s|
    ensures forall i :: 0 <= i < |s| ==> r[i] == s[|s| - 1 - i]
  {
    if s == [] then [] else Reversed(s[1..]) + [s[0]]
  }

  class InMemorySnapshotStore {
    var snapshots: map<Digest, Snapshot>
    var persisted: set<Digest>
    var persisting: set<Digest>
    var order: seq<Digest>
    const retained: nat

    ghost function Model(): (r: Store)
      reads this
    {
      Store(snapshots, persisted, persisting, order, retained)
    }

    constructor (maxRetained: nat)
      ensures Model() == Store(map[], {}, {}, [], maxRetained)
    {
      snapshots, persisted, persisting, order := map[], {}, {}, [];
      retained := maxRetained;
    }

    method Insert(d: Digest, s: Snapshot)
      modifies this
      ensures Model() == old(Model()).(snapshots := old(snapshots)[d := s])
    {
      snapshots := snapshots[d := s];
    }

    /** Neither persisted nor in flight, all along the chain. */
    method CanPersistChain(chain: seq<Digest>) returns (r: bool)
      ensures r <==> forall c <- chain :: c !in persisted && c !in persisting
    {
      for i := 0 to |chain|
        invariant forall j :: 0 <= j < i ==> chain[j] !in persisted && chain[j] !in persisting
      {
        if chain[i] in persisted || chain[i] in persisting {
          return false;
        }
      }
      r := true;
    }

    method MarkPersistingChain(chain: seq<Digest>)
      modifies this
      ensures Model() == old(Model()).(persisting := old(persisting) + Elems(chain))
    {
      for i := 0 to |chain|
        invariant Model() == old(Model()).(persisting := old(persisting) + Elems(chain[..i]))
      {
        assert chain[..i + 1] == chain[..i] + [chain[i]];
        persisting := persisting + {chain[i]};
      }
      assert chain[..|chain|] == chain;
    }

    method ClearPersistingChain(chain: seq<Digest>)
      modifies this
      ensures Model() == old(Model()).(persisting := old(persisting) - Elems(chain))
    {
      for i := 0 to |chain|
        invariant Model() == old(Model()).(persisting := old(persisting) - Elems(chain[..i]))
      {
        assert chain[..i + 1] == chain[..i] + [chain[i]];
        persisting := persisting - {chain[i]};
      }
      assert chain[..|chain|] == chain;
    }

    method MarkPersisted(ds: seq<Digest>)
      modifies this
      ensures Model() == Marked(old(Model()), ds)
    {
      for i := 0 to |ds|
        invariant Model() == Marked(old(Model()), ds[..i])
      {
        assert ds[..i + 1][..i] == ds[..i];
        if ds[i] !in persisted {
          persisted := persisted + {ds[i]};
          order := order + [ds[i]];
        }
      }
      assert ds[..|ds|] == ds;
    }

    /** Returns how many snapshots were dropped. */
    method EvictPersisted() returns (evicted: nat)
      modifies this
      ensures Model() == Evicted(old(Model()))
      ensures evicted + |snapshots| == |old(snapshots)|
    {
      evicted := 0;
      while |order| > retained
        invariant Evicted(Model()) == Evicted(old(Model()))
        invariant evicted + |snapshots| == |old(snapshots)|
      {
        var oldest := order[0];
        order := order[1..];
        if oldest in persisted && oldest in snapshots {
          assert (snapshots - {oldest}).Keys == snapshots.Keys - {oldest};
          snapshots := snapshots - {oldest};
          evicted := evicted + 1;
        } else {
          assert snapshots - {oldest} == snapshots || oldest !in persisted;
        }
      }
    }

    /** Walk back from `digest` to a persisted block, newest first. */
    method WalkBack(digest: Digest, ghost rank: Digest -> nat) returns (r: Result<seq<Digest>, Digest>)
      requires Acyclic(snapshots, rank)
      ensures r.Err? ==> Unpersisted(Model(), rank, digest) == r
      ensures r.Ok? ==> Unpersisted(Model(), rank, digest) == Ok(Reversed(r.value))
    {
      var chain: seq<Digest> := [];
      var current: Option<Digest> := Some(digest);
      WalkStart(Model(), rank, digest);
      while current.Some?
        invariant WalkedTo(Model(), rank, digest, chain, current)
        decreases if current.None? then 0 else rank(current.value) + 1
      {
        var d := current.value;
        if d in persisted {
          break;
        }
        if d !in snapshots {
          return Err(d);
        }
        WalkStep(Model(), rank, digest, chain, d);
        chain := chain + [d];
        current := snapshots[d].parent;
      }
      assert [] + Reversed(chain) == Reversed(chain);
      r := Ok(chain);
    }

    /** The chain up to `digest`, oldest first, with its changes merged in that order. */
    method ChangesForPersist(digest: Digest, ghost rank: Digest -> nat) returns (r: Result<(seq<Digest>, ChangeSet), Digest>)
      requires Acyclic(snapshots, rank)
      ensures match Unpersisted(Model(), rank, digest)
        case Err(e) => r == Err(e)
        case Ok(chain) => r == Ok((chain, MergeAll(ChangesOf(snapshots, chain))))
    {
      var walked := WalkBack(digest, rank);
      if walked.Err? {
        return Err(walked.error);
      }
      var chain := Reversed(walked.value);
      var changes := ChangesOf(snapshots, chain);
      var merged := MergeOldestFirst(changes);
      r := Ok((chain, merged));
    }

    /** The changes of all unpersisted ancestors with `changes` on top. */
    method MergedChanges(parent: Digest, changes: ChangeSet, ghost rank: Digest -> nat) returns (r: Result<ChangeSet, Digest>)
      requires Acyclic(snapshots, rank)
      ensures match Unpersisted(Model(), rank, parent)
        case Err(e) => r == Err(e)
        case Ok(chain) => r == Ok(MergeAll(ChangesOf(snapshots, chain) + [changes]))
    {
      var walked := WalkBack(parent, rank);
      if walked.Err? {
        return Err(walked.error);
      }
      var below := ChangesOf(snapshots, Reversed(walked.value));
      var merged := MergeOldestFirst(below);
      merged := MergeInto(merged, changes);
      assert (below + [changes])[..|below|] == below;
      r := Ok(merged);
    }
  }

  method MergeOldestFirst(queue: seq<ChangeSet>) returns (merged: ChangeSet)
    ensures merged == MergeAll(queue)
  {
    merged := map[];
    for i := 0 to |queue|
      invariant merged == MergeAll(queue[..i])
    {
      assert queue[..i + 1][..i] == queue[..i];
      merged := MergeInto(merged, queue[i]);
    }
    assert queue[..|queue|] == queue;
  }

  /** After walking `chain` newest first, the rest of the answer comes from `current`. */
  ghost predicate WalkedTo(s: Store, rank: Digest -> nat, from: Digest, chain: seq<Digest>, current: Option<Digest>)
  {
    Unpersisted(s, rank, from) ==
      match current
      case None => Ok(Reversed(chain))
      case Some(d) =>
        match Unpersisted(s, rank, d)
        case Err(e) => Err(e)
        case Ok(c) => Ok(c + Reversed(chain))
  }

  lemma WalkStart(s: Store, rank: Digest -> nat, d: Digest)
    ensures WalkedTo(s, rank, d, [], Some(d))
  {
    var r := Unpersisted(s, rank, d);
    if r.Ok? {
      assert r.value + Reversed<Digest>([]) == r.value;
    }
  }

  lemma WalkStep(s: Store, rank: Digest -> nat, from: Digest, chain: seq<Digest>, d: Digest)
    requires Acyclic(s.snapshots, rank)
    requires d !in s.persisted && d in s.snapshots
    requires WalkedTo(s, rank, from, chain, Some(d))
    ensures WalkedTo(s, rank, from, chain + [d], s.snapshots[d].parent)
  {
    assert Reversed(chain + [d]) == [d] + Reversed(chain);
    if s.snapshots[d].parent.Some? {
      var r := Unpersisted(s, rank, s.snapshots[d].parent.value);
      if r.Ok? {
        assert r.value + [d] + Reversed(chain) == r.value + Reversed(chain + [d]);
      }
    }
  }
}
