/** The tree of blocks a ledger works on, and paths in it. */
module BlockTree {
  import opened Prelude
  import opened StateChanges
  import opened SnapshotStore

  /** Blocks by digest: parent, height, own changes and transactions, and the root hash
      `mix` of a parent root with a nonempty change set. */
  datatype Tree = Tree(
    genesis: Digest,
    parent: Digest -> Digest,
    height: Digest -> nat,
    changes: Digest -> ChangeSet,
    txIds: Digest -> set<TxId>,
    mix: (Root, ChangeSet) -> Root)

  ghost predicate WellFormed(t: Tree) {
    && t.height(t.genesis) == 0
    && forall d {:trigger t.parent(d)} :: d != t.genesis ==> t.height(d) == t.height(t.parent(d)) + 1
  }

  ghost predicate IsAncestor(t: Tree, a: Digest, d: Digest)
    requires WellFormed(t)
    decreases t.height(d)
  {
    d == a || (d != t.genesis && IsAncestor(t, a, t.parent(d)))
  }

  /** The blocks after `a` up to `d`. */
  ghost function Between(t: Tree, a: Digest, d: Digest): (r: seq<Digest>)
    requires WellFormed(t)
    decreases t.height(d)
  {
    if d == a || d == t.genesis then [] else Between(t, a, t.parent(d)) + [d]
  }

  /** Consecutive blocks, each the parent of the next. */
  ghost predicate Linked(t: Tree, chain: seq<Digest>) {
    && t.genesis !in chain
    && forall j, k :: 0 <= j && k == j + 1 && k < |chain| ==> t.parent(chain[k]) == chain[j]
  }

  ghost function ChangesAlong(t: Tree, ds: seq<Digest>): (r: seq<ChangeSet>) {
    seq(|ds|, i requires 0 <= i < |ds| => t.changes(ds[i]))
  }

  /** The changes along every path of the tree merge without losing their meaning. */
  ghost predicate SafeTree(t: Tree)
    requires WellFormed(t)
  {
    forall a: Digest, d: Digest :: IsAncestor(t, a, d) ==> ChainSafe(ChangesAlong(t, Between(t, a, d)))
  }

  /** A condition every block can be tested for by itself. */
  ghost predicate CleanTree(t: Tree) {
    forall d: Digest :: Clean(t.changes(d))
  }

  /** The state after block `d`, one block at a time from the genesis state. */
  ghost function WorldAt(t: Tree, w: World, d: Digest): (r: World)
    requires WellFormed(t)
    decreases t.height(d)
  {
    if d == t.genesis then w else Apply(WorldAt(t, w, t.parent(d)), t.changes(d))
  }

  /** A block without changes keeps its parent's root. */
  ghost function RootStep(t: Tree, r: Root, cs: ChangeSet): (q: Root) {
    if cs == map[] then r else t.mix(r, cs)
  }

  /** The root of block `d`, folded along its ancestors. */
  ghost function RootAt(t: Tree, r: Root, d: Digest): (q: Root)
    requires WellFormed(t)
    decreases t.height(d)
  {
    if d == t.genesis then r else RootStep(t, RootAt(t, r, t.parent(d)), t.changes(d))
  }

  lemma {:induction false} GenesisAncestor(t: Tree, d: Digest)
    requires WellFormed(t)
    ensures IsAncestor(t, t.genesis, d)
    decreases t.height(d)
  {
    if d != t.genesis {
      GenesisAncestor(t, t.parent(d));
    }
  }

  lemma {:induction false} AncestorHeight(t: Tree, a: Digest, d: Digest)
    requires WellFormed(t) && IsAncestor(t, a, d)
    ensures a == d || t.height(a) < t.height(d)
    decreases t.height(d)
  {
    if a != d {
      AncestorHeight(t, a, t.parent(d));
    }
  }

  lemma {:induction false} BetweenSplit(t: Tree, a: Digest, m: Digest, d: Digest)
    requires WellFormed(t) && IsAncestor(t, a, m) && IsAncestor(t, m, d)
    ensures IsAncestor(t, a, d) && Between(t, a, d) == Between(t, a, m) + Between(t, m, d)
    decreases t.height(d)
  {
    if m != d {
      BetweenSplit(t, a, m, t.parent(d));
      AncestorHeight(t, a, t.parent(d));
    }
  }

  lemma {:induction false} OnPathIsAncestor(t: Tree, a: Digest, m: Digest, d: Digest)
    requires WellFormed(t) && m in Between(t, a, d)
    ensures IsAncestor(t, m, d)
    decreases t.height(d)
  {
    if m != d {
      OnPathIsAncestor(t, a, m, t.parent(d));
    }
  }

  lemma {:induction false} WorldAtReplays(t: Tree, w: World, d: Digest)
    requires WellFormed(t)
    ensures WorldAt(t, w, d) == Replay(w, ChangesAlong(t, Between(t, t.genesis, d)))
    decreases t.height(d)
  {
    if d != t.genesis {
      var p := t.parent(d);
      WorldAtReplays(t, w, p);
      var path := Between(t, t.genesis, p);
      assert ChangesAlong(t, path + [d]) == ChangesAlong(t, path) + [t.changes(d)];
      ReplayAppend(w, ChangesAlong(t, path), t.changes(d));
    }
  }

  lemma ChangesAlongConcat(t: Tree, a: seq<Digest>, b: seq<Digest>)
    ensures ChangesAlong(t, a + b) == ChangesAlong(t, a) + ChangesAlong(t, b)
  {
  }

  /** Heights rise by one along a linked chain, so it has no repeats. */
  lemma {:induction false} LinkedHeights(t: Tree, chain: seq<Digest>, k: nat)
    requires WellFormed(t) && Linked(t, chain) && k < |chain|
    ensures t.height(chain[k]) == t.height(chain[0]) + k
  {
    if k > 0 {
      LinkedHeights(t, chain, k - 1);
      var j := k - 1;
      assert t.parent(chain[k]) == chain[j];
    }
  }

  lemma LinkedDistinct(t: Tree, chain: seq<Digest>)
    requires WellFormed(t) && Linked(t, chain)
    ensures Distinct(chain)
  {
    forall i, j | 0 <= i < j < |chain| ensures chain[i] != chain[j] {
      LinkedHeights(t, chain, i);
      LinkedHeights(t, chain, j);
    }
  }

  /** A linked chain is the path from the parent of its first block. */
  lemma {:induction false} LinkedIsPath(t: Tree, chain: seq<Digest>)
    requires WellFormed(t) && Linked(t, chain) && chain != []
    ensures IsAncestor(t, t.parent(chain[0]), chain[|chain| - 1])
    ensures Between(t, t.parent(chain[0]), chain[|chain| - 1]) == chain
  {
    var n := |chain| - 1;
    var init, a, d := chain[..n], t.parent(chain[0]), chain[n];
    assert chain == init + [d];
    LinkedHeights(t, chain, n);
    if n > 0 {
      var k := n - 1;
      assert t.parent(chain[n]) == chain[k];
      forall j, m | 0 <= j && m == j + 1 && m < |init| ensures t.parent(init[m]) == init[j] {
        assert t.parent(chain[m]) == chain[j];
      }
      LinkedIsPath(t, init);
    }
  }

  lemma CleanTreeIsSafe(t: Tree)
    requires WellFormed(t) && CleanTree(t)
    ensures SafeTree(t)
  {
    forall a: Digest, d: Digest | IsAncestor(t, a, d) ensures ChainSafe(ChangesAlong(t, Between(t, a, d))) {
      var css := ChangesAlong(t, Between(t, a, d));
      assert forall c <- css :: Clean(c);
      CleanChainSafe(css);
    }
  }
}
