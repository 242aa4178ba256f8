/** Account updates, their merge, and what they mean for the state of the world.

    `Update` and `Merge` are the change set of the storage layer, `World` is the
    plain reference state: applying one change set after another is the meaning
    that merging has to keep. */
module StateChanges {
  import opened Prelude

  type Address = nat
  type Slot = nat
  type Word = nat
  type Hash = nat

  /** Code hash of an account without code. */
  const NO_CODE: Hash := 0

  datatype Update = Update(
    created: bool,
    selfdestructed: bool,
    nonce: nat,
    balance: nat,
    codeHash: Hash,
    code: Option<seq<nat>>,
    storage: map<Slot, Word>)

  type ChangeSet = map<Address, Update>

  /** The later update `v` merged into the earlier update `u`. */
  function MergeUpdate(u: Update, v: Update): (r: Update) {
    Update(
      u.created || v.created,
      v.selfdestructed,
      v.nonce,
      v.balance,
      v.codeHash,
      if u.codeHash != v.codeHash || v.code.Some? then v.code else u.code,
      if v.selfdestructed then map[]
      else (if v.created then map[] else u.storage) + v.storage)
  }

  function Merge(a: ChangeSet, b: ChangeSet): (r: ChangeSet) {
    map x | x in a.Keys + b.Keys ::
      if x !in b then a[x] else if x !in a then b[x] else MergeUpdate(a[x], b[x])
  }

  /** `ChangeSet::merge`: fold the updates of `other` into `self` one by one. */
  method MergeInto(self: ChangeSet, other: ChangeSet) returns (r: ChangeSet)
    ensures r == Merge(self, other)
  {
    r := self;
    ghost var merged := Merge(self, other);
    var todo := other.Keys;
    while todo != {}
      invariant todo <= other.Keys
      invariant r.Keys == self.Keys + (other.Keys - todo)
      invariant forall x <- r :: r[x] == if x in other && x !in todo then merged[x] else self[x]
    {
      var x :| x in todo;
      if x in r {
        r := r[x := MergeUpdate(r[x], other[x])];
      } else {
        r := r[x := other[x]];
      }
      todo := todo - {x};
    }
    assert r.Keys == merged.Keys;
  }

  // ----- reference state -----

  datatype Account = Account(nonce: nat, balance: nat, codeHash: Hash, storage: map<Slot, Word>)

  /** Live accounts; a slot that is not in the storage map holds zero. */
  type World = map<Address, Account>

  datatype Info = Info(nonce: nat, balance: nat, codeHash: Hash)

  function Get(w: World, x: Address): (r: Option<Account>) {
    if x in w then Some(w[x]) else None
  }

  function NonZero(m: map<Slot, Word>): (r: map<Slot, Word>) {
    map s | s in m && m[s] != 0 :: m[s]
  }

  predicate AllZero(m: map<Slot, Word>) {
    forall s <- m :: m[s] == 0
  }

  function Load(m: map<Slot, Word>, s: Slot): (r: Word) {
    if s in m then m[s] else 0
  }

  lemma NonZeroEqual(m: map<Slot, Word>, n: map<Slot, Word>)
    requires forall s :: Load(m, s) == Load(n, s)
    ensures NonZero(m) == NonZero(n)
  {
    forall s ensures s in NonZero(m) <==> s in NonZero(n) {
      assert Load(m, s) == Load(n, s);
    }
    forall s | s in NonZero(m) ensures NonZero(m)[s] == NonZero(n)[s] {
      assert Load(m, s) == Load(n, s);
    }
  }

  /** What one update makes of one account. */
  function ApplyUpdate(pre: Option<Account>, u: Update): (r: Option<Account>) {
    if u.selfdestructed then None
    else
      var kept := if u.created || pre.None? then map[] else pre.value.storage;
      Some(Account(u.nonce, u.balance, u.codeHash, NonZero(kept + u.storage)))
  }

  function After(w: World, cs: ChangeSet, x: Address): (r: Option<Account>) {
    if x in cs then ApplyUpdate(Get(w, x), cs[x]) else Get(w, x)
  }

  function Apply(w: World, cs: ChangeSet): (r: World)
    ensures forall x :: Get(r, x) == After(w, cs, x)
  {
    map x | x in w.Keys + cs.Keys && After(w, cs, x).Some? :: After(w, cs, x).value
  }

  lemma SameWorld(v: World, w: World)
    requires forall x :: Get(v, x) == Get(w, x)
    ensures v == w
  {
    forall x ensures x in v <==> x in w {
      assert Get(v, x) == Get(w, x);
    }
    forall x | x in v ensures v[x] == w[x] {
      assert Get(v, x) == Get(w, x);
    }
  }

  /** The change sets applied one after the other, oldest first. */
  function Replay(w: World, css: seq<ChangeSet>): (r: World) {
    if css == [] then w else Apply(Replay(w, css[..|css| - 1]), css[|css| - 1])
  }

  /** The change sets merged into one, oldest first. */
  function MergeAll(css: seq<ChangeSet>): (r: ChangeSet) {
    if css == [] then map[] else Merge(MergeAll(css[..|css| - 1]), css[|css| - 1])
  }

  // ----- when merging keeps the meaning -----

  /** Merging loses the destruction in `u` when `v` neither destroys nor creates
      again; it is harmless exactly when `u` also created the account and left no
      nonzero slot that `v` does not overwrite. */
  predicate SafePair(u: Update, v: Update) {
    u.selfdestructed && !v.selfdestructed && !v.created ==>
      && u.created
      && forall s <- u.storage :: u.storage[s] == 0 || s in v.storage
  }

  predicate MergeSafe(a: ChangeSet, b: ChangeSet) {
    forall x <- a :: x in b ==> SafePair(a[x], b[x])
  }

  lemma MergePairSequential(pre: Option<Account>, u: Update, v: Update)
    requires SafePair(u, v)
    ensures ApplyUpdate(ApplyUpdate(pre, u), v) == ApplyUpdate(pre, MergeUpdate(u, v))
  {
    var none: map<Slot, Word> := map[];
    if !v.selfdestructed {
      if v.created {
        assert none + (none + v.storage) == none + v.storage;
      } else if u.selfdestructed {
        NonZeroEqual(none + v.storage, none + (u.storage + v.storage));
      } else {
        var kept := if u.created || pre.None? then map[] else pre.value.storage;
        NonZeroEqual(NonZero(kept + u.storage) + v.storage, kept + (u.storage + v.storage));
      }
    }
  }

  /** One application of the merged set means the same as the two applications in
      turn, on every world, exactly for the safe pairs. */
  lemma MergeSequentialIffSafe(a: ChangeSet, b: ChangeSet)
    ensures (forall w: World :: Apply(Apply(w, a), b) == Apply(w, Merge(a, b))) <==> MergeSafe(a, b)
  {
    if MergeSafe(a, b) {
      forall w: World ensures Apply(Apply(w, a), b) == Apply(w, Merge(a, b)) {
        MergeSequential(w, a, b);
      }
    } else {
      var x :| x in a && x in b && !SafePair(a[x], b[x]);
      var w := UnsafeWitness(a, b, x);
    }
  }

  lemma MergeSequential(w: World, a: ChangeSet, b: ChangeSet)
    requires MergeSafe(a, b)
    ensures Apply(Apply(w, a), b) == Apply(w, Merge(a, b))
  {
    forall x ensures Get(Apply(Apply(w, a), b), x) == Get(Apply(w, Merge(a, b)), x) {
      if x in a && x in b {
        MergePairSequential(Get(w, x), a[x], b[x]);
      }
    }
    SameWorld(Apply(Apply(w, a), b), Apply(w, Merge(a, b)));
  }

  /** An unsafe pair has a world on which the two readings differ: either a slot of
      the destroyed account comes back from the state below, or one comes back from
      the destroyed update itself. */
  lemma UnsafeWitness(a: ChangeSet, b: ChangeSet, x: Address) returns (w: World)
    requires x in a && x in b && !SafePair(a[x], b[x])
    ensures Apply(Apply(w, a), b) != Apply(w, Merge(a, b))
  {
    var u, v := a[x], b[x];
    var s: Slot;
    if u.created {
      s :| s in u.storage && u.storage[s] != 0 && s !in v.storage;
      w := map[];
    } else {
      s := Unused(u.storage.Keys + v.storage.Keys);
      w := map[x := Account(0, 0, NO_CODE, map[s := 1])];
    }
    assert Get(Apply(w, Merge(a, b)), x) == ApplyUpdate(Get(w, x), MergeUpdate(u, v));
    assert s in ApplyUpdate(Get(w, x), MergeUpdate(u, v)).value.storage;
    assert Get(Apply(Apply(w, a), b), x) == ApplyUpdate(None, v);
    assert s !in ApplyUpdate(None, v).value.storage;
  }

  /** A destroyed account was also created by the same change set and carries no
      nonzero slot. */
  predicate Clean(cs: ChangeSet) {
    forall x <- cs :: cs[x].selfdestructed ==> cs[x].created && AllZero(cs[x].storage)
  }

  lemma CleanIsSafe(a: ChangeSet, b: ChangeSet)
    requires Clean(a)
    ensures MergeSafe(a, b)
    ensures Clean(b) ==> Clean(Merge(a, b))
  {
  }

  /** Every merge made on the way to the merged chain is safe. */
  predicate ChainSafe(css: seq<ChangeSet>) {
    css == [] ||
    var init, last := css[..|css| - 1], css[|css| - 1];
    ChainSafe(init) && MergeSafe(MergeAll(init), last)
  }

  lemma {:induction false} CleanChainSafe(css: seq<ChangeSet>)
    requires forall c <- css :: Clean(c)
    ensures Clean(MergeAll(css)) && ChainSafe(css)
  {
    if css != [] {
      var init, last := css[..|css| - 1], css[|css| - 1];
      assert forall c <- init :: c in css;
      CleanChainSafe(init);
      CleanIsSafe(MergeAll(init), last);
    }
  }

  predicate Destroys(cs: ChangeSet, x: Address) {
    x in cs && cs[x].selfdestructed
  }

  /** No block updates an account that an earlier block destroyed. */
  predicate NotTouchedAgain(css: seq<ChangeSet>) {
    css == [] ||
    var init, last := css[..|css| - 1], css[|css| - 1];
    NotTouchedAgain(init) && forall c <- init, x <- last :: !Destroys(c, x)
  }

  /** What the merged chain destroys, some block destroys. */
  lemma {:induction false} MergedDestroys(css: seq<ChangeSet>, x: Address)
    requires Destroys(MergeAll(css), x)
    ensures exists c <- css :: Destroys(c, x)
  {
    var init, last := css[..|css| - 1], css[|css| - 1];
    assert last in css;
    if x !in last {
      MergedDestroys(init, x);
      var c :| c in init && Destroys(c, x);
      assert c in css;
    }
  }

  /** Clean is not necessary: a chain is safe, whatever its blocks destroy, if no
      destroyed account is touched again. */
  lemma {:induction false} UntouchedIsSafe(css: seq<ChangeSet>)
    requires NotTouchedAgain(css)
    ensures ChainSafe(css)
  {
    if css != [] {
      var init, last := css[..|css| - 1], css[|css| - 1];
      UntouchedIsSafe(init);
      forall x <- MergeAll(init) | x in last ensures !MergeAll(init)[x].selfdestructed {
        if Destroys(MergeAll(init), x) {
          MergedDestroys(init, x);
        }
      }
    }
  }

  lemma ApplyTwice(w: World, cs: ChangeSet)
    ensures Apply(Apply(w, cs), cs) == Apply(w, cs)
  {
    var once, twice := Apply(w, cs), Apply(Apply(w, cs), cs);
    forall x ensures Get(twice, x) == Get(once, x) {
      if x in cs && !cs[x].selfdestructed {
        assert Get(twice, x).value.storage == Get(once, x).value.storage;
      }
    }
    SameWorld(twice, once);
  }

  /** A merged overlay may sit on a base that has already absorbed any number `k` of
      the merged change sets: the result is always the replay of all of them. */
  lemma {:induction false} OverlayOnAdvancedBase(w: World, css: seq<ChangeSet>, k: nat)
    requires k <= |css| && ChainSafe(css)
    ensures Apply(Replay(w, css[..k]), MergeAll(css)) == Replay(w, css)
  {
    if css == [] {
      SameWorld(Apply(w, map[]), w);
    } else {
      var init, last := css[..|css| - 1], css[|css| - 1];
      var j := if k == |css| then 0 else k;
      assert css[..j] == init[..j];
      OverlayOnAdvancedBase(w, init, j);
      MergeSequential(Replay(w, css[..j]), MergeAll(init), last);
      if k == |css| {
        assert css[..k] == css;
        ApplyTwice(w, MergeAll(css));
      }
    }
  }

  /** On every world, one commit of the merged chain means the same as its change sets
      committed in turn. */
  ghost predicate MergedMeansReplay(css: seq<ChangeSet>) {
    forall w: World :: Apply(w, MergeAll(css)) == Replay(w, css)
  }

  lemma SafeChainMeansReplay(css: seq<ChangeSet>)
    requires ChainSafe(css)
    ensures MergedMeansReplay(css)
  {
    forall w: World ensures Apply(w, MergeAll(css)) == Replay(w, css) {
      OverlayOnAdvancedBase(w, css, 0);
      assert css[..0] == [];
    }
  }

  lemma LastMergeSafe(init: seq<ChangeSet>, last: ChangeSet)
    requires MergedMeansReplay(init) && MergedMeansReplay(init + [last])
    ensures MergeSafe(MergeAll(init), last)
  {
    assert (init + [last])[..|init|] == init;
    forall w: World
      ensures Apply(Apply(w, MergeAll(init)), last) == Apply(w, Merge(MergeAll(init), last))
    {
      assert Apply(w, MergeAll(init)) == Replay(w, init);
      assert Apply(w, MergeAll(init + [last])) == Replay(w, init + [last]);
    }
    MergeSequentialIffSafe(MergeAll(init), last);
  }

  ghost predicate PrefixesMeanReplay(css: seq<ChangeSet>) {
    forall n: nat :: n <= |css| ==> MergedMeansReplay(css[..n])
  }

  lemma PrefixesStep(init: seq<ChangeSet>, last: ChangeSet)
    ensures PrefixesMeanReplay(init + [last]) <==> PrefixesMeanReplay(init) && MergedMeansReplay(init + [last])
  {
    var css := init + [last];
    assert css[..|css|] == css;
    assert forall n: nat :: n <= |init| ==> init[..n] == css[..n];
  }

  /** Merging keeps the meaning of every prefix of a chain exactly when the chain is
      safe. */
  lemma {:induction false} ChainMergeIffSafe(css: seq<ChangeSet>)
    ensures ChainSafe(css) <==> PrefixesMeanReplay(css)
  {
    if css == [] {
      SafeChainMeansReplay(css);
    } else {
      var init, last := css[..|css| - 1], css[|css| - 1];
      ChainMergeIffSafe(init);
      assert init + [last] == css;
      PrefixesStep(init, last);
      if ChainSafe(css) {
        SafeChainMeansReplay(css);
      } else if ChainSafe(init) && MergedMeansReplay(css) {
        assert init[..|init|] == init;
        assert MergedMeansReplay(init[..|init|]);
        LastMergeSafe(init, last);
      }
    }
  }

  /** The smallest chain that is not safe: block one destroys account 7, block two
      pays it. Slot 1 is read as zero or as its old value depending on whether block
      one has been committed below the overlay. */
  lemma DestroyThenPay()
    ensures
      var w: World := map[7 := Account(1, 0, NO_CODE, map[1 := 5])];
      var destroy: ChangeSet := map[7 := Update(false, true, 0, 0, NO_CODE, None, map[])];
      var pay: ChangeSet := map[7 := Update(false, false, 0, 9, NO_CODE, None, map[])];
      && !ChainSafe([destroy, pay])
      && OverlaySlot(w, MergeAll([destroy, pay]), 7, 1) == 5
      && OverlaySlot(Apply(w, destroy), MergeAll([destroy, pay]), 7, 1) == 0
  {
    var destroy: ChangeSet := map[7 := Update(false, true, 0, 0, NO_CODE, None, map[])];
    var pay: ChangeSet := map[7 := Update(false, false, 0, 9, NO_CODE, None, map[])];
    var css := [destroy, pay];
    assert css[..1] == [destroy] && [destroy][..0] == [];
    assert MergeAll([destroy]) == Merge(map[], destroy) == destroy;
    assert MergeAll(css) == Merge(destroy, pay);
    assert !SafePair(destroy[7], pay[7]);
  }

  lemma {:induction false} ReplayConcat(w: World, a: seq<ChangeSet>, b: seq<ChangeSet>)
    ensures Replay(w, a + b) == Replay(Replay(w, a), b)
  {
    if b == [] {
      assert a + b == a;
    } else {
      assert (a + b)[..|a + b| - 1] == a + b[..|b| - 1];
      ReplayConcat(w, a, b[..|b| - 1]);
    }
  }

  lemma ReplayAppend(w: World, a: seq<ChangeSet>, c: ChangeSet)
    ensures Replay(w, a + [c]) == Apply(Replay(w, a), c)
  {
    assert (a + [c])[..|a|] == a;
  }

  /** The states after each of the first `n` change sets are their replays. */
  ghost predicate AllReplays(ws: seq<World>, css: seq<ChangeSet>, n: nat)
    requires n <= |css| && |ws| == |css| + 1
  {
    ws[n] == Replay(ws[0], css[..n]) && (n > 0 ==> AllReplays(ws, css, n - 1))
  }

  /** Each of the first `n` states is the one before with its change set applied. */
  ghost predicate AllApply(ws: seq<World>, css: seq<ChangeSet>, n: nat)
    requires n <= |css| && |ws| == |css| + 1
  {
    n == 0 || (AllApply(ws, css, n - 1) && ws[n] == Apply(ws[n - 1], css[n - 1]))
  }

  lemma {:induction false} AllReplaysIffAllApply(ws: seq<World>, css: seq<ChangeSet>, n: nat)
    requires n <= |css| && |ws| == |css| + 1
    ensures AllReplays(ws, css, n) <==> AllApply(ws, css, n)
  {
    if n == 0 {
      assert css[..0] == [];
    } else {
      AllReplaysIffAllApply(ws, css, n - 1);
      assert css[..n] == css[..n - 1] + [css[n - 1]];
      ReplayAppend(ws[0], css[..n - 1], css[n - 1]);
    }
  }

  // ----- reads through an overlay -----

  function InfoAt(w: World, x: Address): (r: Option<Info>) {
    if x in w then Some(Info(w[x].nonce, w[x].balance, w[x].codeHash)) else None
  }

  function SlotAt(w: World, x: Address, s: Slot): (r: Word) {
    if x in w then Load(w[x].storage, s) else 0
  }

  /** `nonce`, `balance` and `code_hash` of an overlay, together. */
  function OverlayInfo(base: World, cs: ChangeSet, x: Address): (r: Option<Info>) {
    if x in cs then Some(Info(cs[x].nonce, cs[x].balance, cs[x].codeHash)) else InfoAt(base, x)
  }

  /** `storage` of an overlay. */
  function OverlaySlot(base: World, cs: ChangeSet, x: Address, s: Slot): (r: Word) {
    if x in cs then
      if cs[x].selfdestructed then 0
      else if s in cs[x].storage then cs[x].storage[s]
      else if cs[x].created then 0
      else SlotAt(base, x, s)
    else SlotAt(base, x, s)
  }

  /** Slot reads through an overlay always agree with the applied state; account
      reads agree exactly for the accounts the overlay does not destroy. */
  lemma OverlayReadsApplied(base: World, cs: ChangeSet, x: Address)
    ensures forall s :: OverlaySlot(base, cs, x, s) == SlotAt(Apply(base, cs), x, s)
    ensures OverlayInfo(base, cs, x) == InfoAt(Apply(base, cs), x) <==> !(x in cs && cs[x].selfdestructed)
  {
    assert Get(Apply(base, cs), x) == After(base, cs, x);
  }

  // ----- code by hash -----

  /** Hashes whose bytes a commit of `cs` writes. */
  function Provided(cs: ChangeSet): (r: set<Hash>) {
    set x | x in cs && !cs[x].selfdestructed && cs[x].code.Some? :: cs[x].codeHash
  }

  /** Every live account finds its code among the `known` hashes. */
  predicate CodeClosed(w: World, known: set<Hash>) {
    forall x <- w :: w[x].codeHash == NO_CODE || w[x].codeHash in known
  }

  /** An update that brings no code bytes does not change the code hash. */
  predicate CodeHonest(w: World, cs: ChangeSet) {
    forall x <- cs :: !cs[x].selfdestructed && cs[x].code.None? && cs[x].codeHash != NO_CODE ==>
      x in w && w[x].codeHash == cs[x].codeHash
  }

  /** The merged set still provides the code of every account that is live after
      both change sets. */
  lemma MergedCodeClosed(w: World, known: set<Hash>, a: ChangeSet, b: ChangeSet)
    requires MergeSafe(a, b)
    requires CodeClosed(w, known) && CodeHonest(w, a) && CodeHonest(Apply(w, a), b)
    ensures CodeClosed(Apply(Apply(w, a), b), known + Provided(Merge(a, b)))
  {
    MergeSequential(w, a, b);
    var m, mid, end := Merge(a, b), Apply(w, a), Apply(w, Merge(a, b));
    forall x | x in end && end[x].codeHash != NO_CODE
      ensures end[x].codeHash in known + Provided(m)
    {
      assert Get(end, x) == After(w, m, x) && Get(mid, x) == After(w, a, x);
      if x in m && m[x].code.Some? {
        assert m[x].codeHash in Provided(m);
      } else if x in m {
        assert x in b ==> x in mid && mid[x].codeHash == b[x].codeHash;
        assert x in w && w[x].codeHash == end[x].codeHash;
      }
    }
  }
}
