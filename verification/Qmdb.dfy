/** The three-partition store behind the ledger. Storage slots are kept under the
    generation of their account, so that recreating an account hides its old slots;
    commits write accounts, storage and code in that order and leave a sequence
    number in each partition. */
module Qmdb {
  import opened Prelude
  import opened StateChanges

  datatype Row = Row(nonce: nat, balance: nat, codeHash: Hash, generation: nat)
  datatype Key = Key(address: Address, generation: nat, slot: Slot)

  /** Last commit sequence number found in each partition. */
  datatype Markers = Markers(accounts: Option<nat>, storage: Option<nat>, code: Option<nat>)

  datatype Tables = Tables(
    accounts: map<Address, Row>,
    storage: map<Key, Word>,
    code: map<Hash, seq<nat>>,
    markers: Markers)

  datatype Batches = Batches(
    accounts: seq<(Address, Option<Row>)>,
    storage: seq<(Key, Option<Word>)>,
    code: seq<(Hash, Option<seq<nat>>)>)

  // ----- batches -----

  function WriteOne<K, V>(m: map<K, V>, op: (K, Option<V>)): (r: map<K, V>) {
    match op.1
    case Some(v) => m[op.0 := v]
    case None => m - {op.0}
  }

  /** The partition after the operations, in order. */
  function WriteAll<K, V>(m: map<K, V>, ops: seq<(K, Option<V>)>): (r: map<K, V>) {
    if ops == [] then m else WriteOne(WriteAll(m, ops[..|ops| - 1]), ops[|ops| - 1])
  }

  lemma WriteAppend<K, V>(m: map<K, V>, ops: seq<(K, Option<V>)>, op: (K, Option<V>))
    ensures WriteAll(m, ops + [op]) == WriteOne(WriteAll(m, ops), op)
  {
    assert (ops + [op])[..|ops|] == ops;
  }

  /** The generation an update writes under. */
  function NewGeneration(accounts: map<Address, Row>, x: Address, u: Update): (r: nat) {
    var current := if x in accounts then accounts[x].generation else 0;
    if u.created || u.selfdestructed then SaturatingAdd(current, 1) else current
  }

  function NewRow(accounts: map<Address, Row>, x: Address, u: Update): (r: Option<Row>) {
    if u.selfdestructed then None
    else Some(Row(u.nonce, u.balance, u.codeHash, NewGeneration(accounts, x, u)))
  }

  /** The accounts partition after a commit. */
  function AccountsAfter(accounts: map<Address, Row>, cs: ChangeSet): (r: map<Address, Row>) {
    map x | x in accounts.Keys + cs.Keys && (x in cs ==> !cs[x].selfdestructed) ::
      if x in cs then NewRow(accounts, x, cs[x]).value else accounts[x]
  }

  predicate Writes(accounts: map<Address, Row>, cs: ChangeSet, k: Key) {
    && k.address in cs
    && k.slot in cs[k.address].storage
    && k.generation == NewGeneration(accounts, k.address, cs[k.address])
  }

  function Value(storage: map<Key, Word>, k: Key): (r: Word) {
    if k in storage then storage[k] else 0
  }

  function ValueAfter(accounts: map<Address, Row>, storage: map<Key, Word>, cs: ChangeSet, k: Key): (r: Word) {
    if Writes(accounts, cs, k) then cs[k.address].storage[k.slot] else Value(storage, k)
  }

  /** The storage partition after a commit: zero deletes. */
  ghost predicate IsStorageAfter(accounts: map<Address, Row>, storage: map<Key, Word>, cs: ChangeSet, r: map<Key, Word>) {
    && Canonical(r)
    && forall k :: Value(r, k) == ValueAfter(accounts, storage, cs, k)
  }

  /** The code partition gains the bytes of every surviving update that brings some. */
  ghost predicate IsCodeAfter(code: map<Hash, seq<nat>>, cs: ChangeSet, r: map<Hash, seq<nat>>) {
    && r.Keys == code.Keys + Provided(cs)
    && forall h <- r :: if h in Provided(cs) then Brought(cs, h, r[h]) else r[h] == code[h]
  }

  /** Some surviving update brings these bytes for the hash. */
  ghost predicate Brought(cs: ChangeSet, h: Hash, bytes: seq<nat>) {
    exists x <- cs :: Brings(cs[x], h, bytes)
  }

  predicate Brings(u: Update, h: Hash, bytes: seq<nat>) {
    !u.selfdestructed && u.code == Some(bytes) && u.codeHash == h
  }

  ghost predicate Canonical(storage: map<Key, Word>) {
    forall k <- storage :: storage[k] != 0
  }

  lemma StorageStepAt(accounts: map<Address, Row>, storage: map<Key, Word>, done: ChangeSet, x: Address, u: Update,
                      part: map<Slot, Word>, s: Slot, k: Key)
    requires x !in done && s !in part && s in u.storage
    ensures
      var before, after := done[x := u.(storage := part)], done[x := u.(storage := part[s := u.storage[s]])];
      ValueAfter(accounts, storage, after, k) ==
        if k == Key(x, NewGeneration(accounts, x, u), s) then u.storage[s] else ValueAfter(accounts, storage, before, k)
  {
  }

  lemma StorageStep(accounts: map<Address, Row>, storage: map<Key, Word>, done: ChangeSet, x: Address, u: Update,
                    part: map<Slot, Word>, s: Slot, m: map<Key, Word>)
    requires x !in done && s !in part && s in u.storage
    requires IsStorageAfter(accounts, storage, done[x := u.(storage := part)], m)
    ensures
      var op := (Key(x, NewGeneration(accounts, x, u), s), if u.storage[s] == 0 then None else Some(u.storage[s]));
      IsStorageAfter(accounts, storage, done[x := u.(storage := part[s := u.storage[s]])], WriteOne(m, op))
  {
    var op := (Key(x, NewGeneration(accounts, x, u), s), if u.storage[s] == 0 then None else Some(u.storage[s]));
    var before, after := done[x := u.(storage := part)], done[x := u.(storage := part[s := u.storage[s]])];
    forall k ensures Value(WriteOne(m, op), k) == ValueAfter(accounts, storage, after, k) {
      StorageStepAt(accounts, storage, done, x, u, part, s, k);
      assert Value(m, k) == ValueAfter(accounts, storage, before, k);
    }
  }

  lemma AccountsStep(accounts: map<Address, Row>, done: ChangeSet, x: Address, u: Update)
    requires x !in done
    ensures WriteOne(AccountsAfter(accounts, done), (x, NewRow(accounts, x, u))) == AccountsAfter(accounts, done[x := u])
  {
  }

  lemma NoSlotsStep(accounts: map<Address, Row>, storage: map<Key, Word>, done: ChangeSet, x: Address, u: Update, m: map<Key, Word>)
    requires x !in done && u.storage == map[] && IsStorageAfter(accounts, storage, done, m)
    ensures IsStorageAfter(accounts, storage, done[x := u], m)
  {
    forall k ensures Value(m, k) == ValueAfter(accounts, storage, done[x := u], k) {
      assert Value(m, k) == ValueAfter(accounts, storage, done, k);
    }
  }

  /** One update's storage operations, appended to those of the updates already `done`. */
  method PushSlots(accounts: map<Address, Row>, storage: map<Key, Word>, x: Address, u: Update, ghost done: ChangeSet, ops: seq<(Key, Option<Word>)>)
    returns (r: seq<(Key, Option<Word>)>)
    requires x !in done
    requires IsStorageAfter(accounts, storage, done, WriteAll(storage, ops))
    ensures IsStorageAfter(accounts, storage, done[x := u], WriteAll(storage, r))
  {
    var generation := NewGeneration(accounts, x, u);
    r := ops;
    var todo := u.storage.Keys;
    ghost var part: map<Slot, Word> := map[];
    NoSlotsStep(accounts, storage, done, x, u.(storage := part), WriteAll(storage, ops));
    while todo != {}
      invariant todo <= u.storage.Keys
      invariant part == map s | s in u.storage.Keys - todo :: u.storage[s]
      invariant IsStorageAfter(accounts, storage, done[x := u.(storage := part)], WriteAll(storage, r))
    {
      var s :| s in todo;
      var op := (Key(x, generation, s), if u.storage[s] == 0 then None else Some(u.storage[s]));
      WriteAppend(storage, r, op);
      StorageStep(accounts, storage, done, x, u, part, s, WriteAll(storage, r));
      r := r + [op];
      part := part[s := u.storage[s]];
      todo := todo - {s};
    }
    assert part == u.storage;
  }

  /** The batches carry out exactly the commit of `cs`. */
  ghost predicate IsBatches(accounts: map<Address, Row>, storage: map<Key, Word>, code: map<Hash, seq<nat>>, cs: ChangeSet, b: Batches) {
    && WriteAll(accounts, b.accounts) == AccountsAfter(accounts, cs)
    && IsStorageAfter(accounts, storage, cs, WriteAll(storage, b.storage))
    && IsCodeAfter(code, cs, WriteAll(code, b.code))
  }

  method PushUpdate(accounts: map<Address, Row>, storage: map<Key, Word>, ghost code: map<Hash, seq<nat>>,
                    x: Address, u: Update, ghost done: ChangeSet, b: Batches) returns (r: Batches)
    requires x !in done && IsBatches(accounts, storage, code, done, b)
    ensures IsBatches(accounts, storage, code, done[x := u], r)
  {
    WriteAppend(accounts, b.accounts, (x, NewRow(accounts, x, u)));
    AccountsStep(accounts, done, x, u);
    var rows := b.accounts + [(x, NewRow(accounts, x, u))];
    var codes := b.code;
    if !u.selfdestructed && u.code.Some? {
      WriteAppend(code, b.code, (u.codeHash, u.code));
      codes := b.code + [(u.codeHash, u.code)];
    }
    CodeStep(code, done, x, u, WriteAll(code, b.code), WriteAll(code, codes));
    var slots := PushSlots(accounts, storage, x, u, done, b.storage);
    r := Batches(rows, slots, codes);
  }

  /** `build_batches`: turn a change set into partition operations. Generations are
      read from the accounts partition as it is before the commit. */
  method BuildBatches(accounts: map<Address, Row>, storage: map<Key, Word>, ghost code: map<Hash, seq<nat>>, cs: ChangeSet)
    returns (r: Batches)
    requires Canonical(storage)
    ensures IsBatches(accounts, storage, code, cs, r)
  {
    r := Batches([], [], []);
    var todo := cs.Keys;
    ghost var done: ChangeSet := map[];
    while todo != {}
      invariant todo <= cs.Keys && done == map x | x in cs.Keys - todo :: cs[x]
      invariant IsBatches(accounts, storage, code, done, r)
    {
      var x :| x in todo;
      r := PushUpdate(accounts, storage, code, x, cs[x], done, r);
      done := done[x := cs[x]];
      todo := todo - {x};
    }
    assert done == cs;
  }

  lemma ProvidedStep(done: ChangeSet, x: Address, u: Update)
    requires x !in done
    ensures Provided(done[x := u]) == Provided(done) + if !u.selfdestructed && u.code.Some? then {u.codeHash} else {}
  {
    var more := if !u.selfdestructed && u.code.Some? then {u.codeHash} else {};
    var next := done[x := u];
    forall h ensures h in Provided(next) <==> h in Provided(done) + more {
      if h in Provided(done) {
        var y :| y in done && !done[y].selfdestructed && done[y].code.Some? && done[y].codeHash == h;
        assert next[y] == done[y];
      }
      if h in more {
        assert next[x] == u;
      }
    }
  }

  lemma BroughtStep(done: ChangeSet, x: Address, u: Update, h: Hash, bytes: seq<nat>)
    requires x !in done
    ensures Brought(done, h, bytes) ==> Brought(done[x := u], h, bytes)
    ensures Brings(u, h, bytes) ==> Brought(done[x := u], h, bytes)
  {
    var next := done[x := u];
    if Brought(done, h, bytes) {
      var y :| y in done && Brings(done[y], h, bytes);
      assert Brings(next[y], h, bytes);
    }
    if Brings(u, h, bytes) {
      assert Brings(next[x], h, bytes);
    }
  }

  lemma CodeStep(code: map<Hash, seq<nat>>, done: ChangeSet, x: Address, u: Update, m: map<Hash, seq<nat>>, r: map<Hash, seq<nat>>)
    requires x !in done && IsCodeAfter(code, done, m)
    requires r == if !u.selfdestructed && u.code.Some? then m[u.codeHash := u.code.value] else m
    ensures IsCodeAfter(code, done[x := u], r)
  {
    ProvidedStep(done, x, u);
    forall h <- r ensures if h in Provided(done[x := u]) then Brought(done[x := u], h, r[h]) else r[h] == code[h] {
      BroughtStep(done, x, u, h, r[h]);
    }
  }

  // ----- the store -----

  /** Which of the three partition writes fails, if any. */
  datatype Fault = NoFault | BeforeAccounts | BeforeStorage | BeforeCode

  /** Owns the partitions. A failed batch write leaves the earlier partitions written
      and the sequence number where it was. */
  class QmdbStore {
    var tables: Tables
    var commitSeq: nat

    constructor ()
      ensures tables == Tables(map[], map[], map[], Markers(None, None, None)) && commitSeq == 0
    {
      tables := Tables(map[], map[], map[], Markers(None, None, None));
      commitSeq := 0;
    }

    /** `commit_changes`, with the point at which a partition write fails. */
    method CommitChanges(cs: ChangeSet, fault: Fault) returns (ok: bool)
      requires Canonical(tables.storage)
      modifies this
      ensures ok <==> cs == map[] || fault == NoFault
      ensures cs == map[] ==> tables == old(tables) && commitSeq == old(commitSeq)
      ensures cs != map[] ==>
        && IsCommit(old(tables), SaturatingAdd(old(commitSeq), 1), cs, fault, tables)
        && commitSeq == if ok then SaturatingAdd(old(commitSeq), 1) else old(commitSeq)
    {
      if cs == map[] {
        return true;
      }
      var b := BuildBatches(tables.accounts, tables.storage, tables.code, cs);
      var next := SaturatingAdd(commitSeq, 1);
      if fault == BeforeAccounts {
        return false;
      }
      var accounts := WriteBatch(tables.accounts, b.accounts);
      tables := tables.(accounts := accounts, markers := tables.markers.(accounts := Some(next)));
      if fault == BeforeStorage {
        return false;
      }
      var storage := WriteBatch(tables.storage, b.storage);
      tables := tables.(storage := storage, markers := tables.markers.(storage := Some(next)));
      if fault == BeforeCode {
        return false;
      }
      var code := WriteBatch(tables.code, b.code);
      tables := tables.(code := code, markers := tables.markers.(code := Some(next)));
      commitSeq := next;
      ok := true;
    }
  }

  method WriteBatch<K(==), V>(m: map<K, V>, ops: seq<(K, Option<V>)>) returns (r: map<K, V>)
    ensures r == WriteAll(m, ops)
  {
    r := m;
    for i := 0 to |ops|
      invariant r == WriteAll(m, ops[..i])
    {
      assert ops[..i + 1] == ops[..i] + [ops[i]];
      WriteAppend(m, ops[..i], ops[i]);
      r := match ops[i].1 case Some(v) => r[ops[i].0 := v] case None => r - {ops[i].0};
    }
    assert ops[..|ops|] == ops;
  }

  /** `r` is `q` with `cs` committed up to the fault, under sequence number `next`. */
  ghost predicate IsCommit(q: Tables, next: nat, cs: ChangeSet, fault: Fault, r: Tables) {
    if fault == BeforeAccounts then r == q else
    && r.accounts == AccountsAfter(q.accounts, cs)
    && (if fault == BeforeStorage then r.storage == q.storage
        else IsStorageAfter(q.accounts, q.storage, cs, r.storage))
    && (if fault != NoFault then r.code == q.code else IsCodeAfter(q.code, cs, r.code))
    && r.markers == Markers(
         Some(next),
         if fault == BeforeStorage then q.markers.storage else Some(next),
         if fault != NoFault then q.markers.code else Some(next))
  }

  /** Accounts and storage are written, whether or not the code is. */
  predicate StorageWritten(fault: Fault) {
    fault == NoFault || fault == BeforeCode
  }

  // ----- meaning -----
  function Slots(storage: map<Key, Word>, x: Address, g: nat): (r: set<Slot>) {
    set k | k in storage && k.address == x && k.generation == g :: k.slot
  }

  function SlotMap(storage: map<Key, Word>, x: Address, g: nat): (r: map<Slot, Word>)
    ensures forall s :: s in r <==> Key(x, g, s) in storage
    ensures forall s <- r :: r[s] == storage[Key(x, g, s)]
  {
    assert forall s :: Key(x, g, s) in storage ==> Key(x, g, s).slot in Slots(storage, x, g);
    map s | s in Slots(storage, x, g) :: storage[Key(x, g, s)]
  }

  /** The state a reader of the store sees: an account's row and the slots kept under
      its current generation. */
  function Abs(q: Tables): (r: World) {
    map x | x in q.accounts ::
      var row := q.accounts[x];
      Account(row.nonce, row.balance, row.codeHash, SlotMap(q.storage, x, row.generation))
  }

  /** A surviving account that starts from empty storage must not find slots of an
      earlier life under its new generation. */
  predicate Stale(q: Tables, cs: ChangeSet, k: Key)
    requires k.address in cs
  {
    var u := cs[k.address];
    && !u.selfdestructed && (u.created || k.address !in q.accounts)
    && k.generation == NewGeneration(q.accounts, k.address, u)
    && k.slot !in u.storage
  }

  predicate NoStale(q: Tables, cs: ChangeSet) {
    forall k <- q.storage :: k.address in cs ==> !Stale(q, cs, k)
  }

  lemma CommittedAccount(q: Tables, next: nat, cs: ChangeSet, fault: Fault, r: Tables, x: Address)
    requires Canonical(q.storage) && IsCommit(q, next, cs, fault, r) && StorageWritten(fault)
    requires NoStale(q, cs)
    ensures Get(Abs(r), x) == After(Abs(q), cs, x)
  {
    if x in r.accounts {
      var g := r.accounts[x].generation;
      var got := SlotMap(r.storage, x, g);
      var want := After(Abs(q), cs, x).value.storage;
      assert x !in cs ==> want == SlotMap(q.storage, x, g);
      forall s ensures Load(got, s) == Load(want, s) {
        CommittedSlot(q, next, cs, fault, r, x, s);
      }
      CanonicalEqual(got, want);
    }
  }

  lemma CommittedSlot(q: Tables, next: nat, cs: ChangeSet, fault: Fault, r: Tables, x: Address, s: Slot)
    requires Canonical(q.storage) && IsCommit(q, next, cs, fault, r) && StorageWritten(fault) && NoStale(q, cs)
    requires x in r.accounts
    ensures Load(SlotMap(r.storage, x, r.accounts[x].generation), s) == Load(After(Abs(q), cs, x).value.storage, s)
  {
    var k := Key(x, r.accounts[x].generation, s);
    assert Value(r.storage, k) == ValueAfter(q.accounts, q.storage, cs, k);
    if x in cs && k in q.storage {
      assert !Stale(q, cs, k);
    }
  }

  lemma CanonicalEqual(m: map<Slot, Word>, n: map<Slot, Word>)
    requires forall s <- m :: m[s] != 0
    requires forall s <- n :: n[s] != 0
    requires forall s :: Load(m, s) == Load(n, s)
    ensures m == n
  {
    NonZeroEqual(m, n);
    assert m == NonZero(m) && n == NonZero(n);
  }

  /** A commit that wrote accounts and storage means exactly `Apply` on the visible state,
      if and only if no stale slots lie under the generations it opens. */
  lemma CommitAppliesIffNoStale(q: Tables, next: nat, cs: ChangeSet, fault: Fault, r: Tables)
    requires Canonical(q.storage) && IsCommit(q, next, cs, fault, r) && StorageWritten(fault)
    ensures Abs(r) == Apply(Abs(q), cs) <==> NoStale(q, cs)
  {
    if NoStale(q, cs) {
      forall x ensures Get(Abs(r), x) == Get(Apply(Abs(q), cs), x) {
        CommittedAccount(q, next, cs, fault, r, x);
      }
      SameWorld(Abs(r), Apply(Abs(q), cs));
    } else {
      var k :| k in q.storage && k.address in cs && Stale(q, cs, k);
      assert Value(r.storage, k) == ValueAfter(q.accounts, q.storage, cs, k) == q.storage[k];
      assert k.slot in Abs(r)[k.address].storage;
      assert Get(Apply(Abs(q), cs), k.address) == After(Abs(q), cs, k.address);
    }
  }

  // ----- runs of commits -----

  /** Every stored slot belongs to a live account and to no later generation. */
  predicate Hygienic(q: Tables) {
    forall k <- q.storage :: k.address in q.accounts && k.generation <= q.accounts[k.address].generation
  }

  /** The same, except for the accounts that `cs` destroys. */
  predicate HygienicBut(q: Tables, cs: ChangeSet) {
    forall k <- q.storage :: Destroys(cs, k.address) ||
      (k.address in q.accounts && k.generation <= q.accounts[k.address].generation)
  }

  /** Destroyed accounts own no stored slot and bring no nonzero one. */
  predicate OrphanFree(q: Tables, cs: ChangeSet) {
    forall x <- cs :: cs[x].selfdestructed ==>
      AllZero(cs[x].storage) && forall k <- q.storage :: k.address != x
  }

  /** No generation saturates within `n` more commits. */
  predicate Room(q: Tables, n: nat) {
    n <= U64_MAX && forall x <- q.accounts :: q.accounts[x].generation + n <= U64_MAX
  }

  lemma HygienicNoStale(q: Tables, cs: ChangeSet)
    requires HygienicBut(q, cs) && Room(q, 1)
    ensures NoStale(q, cs)
  {
  }

  /** A commit keeps the store hygienic exactly when it leaves no orphaned slot. */
  lemma HygieneIffOrphanFree(q: Tables, next: nat, cs: ChangeSet, fault: Fault, r: Tables)
    requires Canonical(q.storage) && Hygienic(q) && Room(q, 1)
    requires IsCommit(q, next, cs, fault, r) && StorageWritten(fault)
    ensures Hygienic(r) <==> OrphanFree(q, cs)
  {
    if OrphanFree(q, cs) {
      forall k | k in r.storage ensures k.address in r.accounts && k.generation <= r.accounts[k.address].generation {
        assert Value(r.storage, k) == ValueAfter(q.accounts, q.storage, cs, k);
      }
    } else {
      var x :| x in cs && cs[x].selfdestructed
        && !(AllZero(cs[x].storage) && forall k <- q.storage :: k.address != x);
      if !AllZero(cs[x].storage) {
        var s :| s in cs[x].storage && cs[x].storage[s] != 0;
        var k := Key(x, NewGeneration(q.accounts, x, cs[x]), s);
        assert Value(r.storage, k) == ValueAfter(q.accounts, q.storage, cs, k) != 0;
        assert k in r.storage;
      } else {
        var k :| k in q.storage && k.address == x;
        assert Value(r.storage, k) == ValueAfter(q.accounts, q.storage, cs, k) == q.storage[k];
        assert k in r.storage;
      }
    }
  }

  ghost predicate Committed(q: Tables, cs: ChangeSet, r: Tables) {
    exists next: nat :: IsCommit(q, next, cs, NoFault, r)
  }

  /** The tables passed through by successful commits of the change sets. */
  ghost predicate IsRun(states: seq<Tables>, css: seq<ChangeSet>) {
    && |states| == |css| + 1
    && forall i: nat :: i < |css| ==> Committed(states[i], css[i], states[i + 1])
  }

  /** None of the first `n` commits opens a generation over stale slots. */
  ghost predicate NeverStale(states: seq<Tables>, css: seq<ChangeSet>, n: nat)
    requires n <= |css| && |states| == |css| + 1
  {
    n == 0 || (NeverStale(states, css, n - 1) && NoStale(states[n - 1], css[n - 1]))
  }

  /** A reader of the tables sees the state `w`. */
  predicate Shows(q: Tables, w: World) {
    w == Abs(q)
  }

  lemma CommittedApplies(q: Tables, cs: ChangeSet, r: Tables)
    requires Committed(q, cs, r) && Canonical(q.storage)
    ensures Canonical(r.storage) && (Abs(r) == Apply(Abs(q), cs) <==> NoStale(q, cs))
  {
    var n: nat :| IsCommit(q, n, cs, NoFault, r);
    CommitAppliesIffNoStale(q, n, cs, NoFault, r);
  }

  lemma CommitInRun(states: seq<Tables>, css: seq<ChangeSet>, m: nat, a: World, b: World)
    requires IsRun(states, css) && m < |css| && Canonical(states[m].storage)
    requires Shows(states[m], a) && Shows(states[m + 1], b)
    ensures Canonical(states[m + 1].storage)
    ensures b == Apply(a, css[m]) <==> NoStale(states[m], css[m])
  {
    assert Committed(states[m], css[m], states[m + 1]);
    CommittedApplies(states[m], css[m], states[m + 1]);
  }

  lemma {:induction false} AllApplyIffNeverStale(states: seq<Tables>, ws: seq<World>, css: seq<ChangeSet>, n: nat)
    requires IsRun(states, css) && Canonical(states[0].storage) && n <= |css|
    requires |ws| == |states| && forall i: nat :: i < |ws| ==> Shows(states[i], ws[i])
    ensures AllApply(ws, css, n) <==> NeverStale(states, css, n)
    ensures Canonical(states[n].storage)
  {
    if n > 0 {
      var m := n - 1;
      AllApplyIffNeverStale(states, ws, css, m);
      CommitInRun(states, css, m, ws[m], ws[m + 1]);
      assert AllApply(ws, css, n) == (AllApply(ws, css, m) && ws[m + 1] == Apply(ws[m], css[m]));
      assert NeverStale(states, css, n) == (NeverStale(states, css, m) && NoStale(states[m], css[m]));
    }
  }

  /** Over any run of commits, the visible state is at every point the replay of the
      change sets so far, if and only if no commit opens a generation over stale slots. */
  lemma RunReplaysIffNeverStale(states: seq<Tables>, ws: seq<World>, css: seq<ChangeSet>)
    requires IsRun(states, css) && Canonical(states[0].storage)
    requires |ws| == |states| && forall i: nat :: i < |ws| ==> Shows(states[i], ws[i])
    ensures AllReplays(ws, css, |css|) <==> NeverStale(states, css, |css|)
  {
    AllReplaysIffAllApply(ws, css, |css|);
    AllApplyIffNeverStale(states, ws, css, |css|);
  }

  /** Runs that orphan nothing are never stale. */
  lemma {:induction false} RunReplays(states: seq<Tables>, css: seq<ChangeSet>)
    requires IsRun(states, css)
    requires Canonical(states[0].storage) && Hygienic(states[0])
    requires forall i: nat :: i < |css| ==> Room(states[i], 1) && OrphanFree(states[i], css[i])
    ensures Abs(states[|css|]) == Replay(Abs(states[0]), css)
    ensures Canonical(states[|css|].storage) && Hygienic(states[|css|])
  {
    if css != [] {
      var m := |css| - 1;
      RunReplays(states[..|states| - 1], css[..m]);
      assert Committed(states[m], css[m], states[m + 1]);
      var n: nat :| IsCommit(states[m], n, css[m], NoFault, states[m + 1]);
      HygienicNoStale(states[m], css[m]);
      CommitAppliesIffNoStale(states[m], n, css[m], NoFault, states[m + 1]);
      HygieneIffOrphanFree(states[m], n, css[m], NoFault, states[m + 1]);
    }
  }

  // ----- retries -----

  ghost predicate Attempted(q: Tables, cs: ChangeSet, fault: Fault, r: Tables) {
    exists next: nat :: IsCommit(q, next, cs, fault, r)
  }

  /** Attempts at the same changes, each cut off somewhere or not at all. */
  ghost predicate IsRetries(states: seq<Tables>, cs: ChangeSet, faults: seq<Fault>) {
    && |states| == |faults| + 1
    && forall i: nat :: i < |faults| ==> Attempted(states[i], cs, faults[i], states[i + 1])
  }

  /** Any number of failed attempts at the same changes, wherever each was cut off, and one
      that succeeds end in the state one clean commit would have given, also when the
      changes destroy accounts that have slots. */
  lemma RetryAfterFault(states: seq<Tables>, cs: ChangeSet, faults: seq<Fault>)
    requires IsRetries(states, cs, faults) && faults != [] && faults[|faults| - 1] == NoFault
    requires Canonical(states[0].storage) && Hygienic(states[0]) && Room(states[0], |faults|)
    ensures Abs(states[|faults|]) == Apply(Abs(states[0]), cs)
  {
    var m := |faults| - 1;
    RetriesKeep(states, cs, faults, m);
    assert Attempted(states[m], cs, faults[m], states[m + 1]);
    var next: nat :| IsCommit(states[m], next, cs, NoFault, states[m + 1]);
    HygienicNoStale(states[m], cs);
    CommitAppliesIffNoStale(states[m], next, cs, NoFault, states[m + 1]);
  }

  /** What attempts at `cs` keep: applying `cs` gives the same state as at the start. */
  lemma {:induction false} RetriesKeep(states: seq<Tables>, cs: ChangeSet, faults: seq<Fault>, m: nat)
    requires IsRetries(states, cs, faults) && m <= |faults|
    requires Canonical(states[0].storage) && Hygienic(states[0]) && Room(states[0], |faults|)
    ensures Canonical(states[m].storage) && HygienicBut(states[m], cs) && Room(states[m], |faults| - m)
    ensures Apply(Abs(states[m]), cs) == Apply(Abs(states[0]), cs)
  {
    if m > 0 {
      RetriesKeep(states, cs, faults, m - 1);
      assert Attempted(states[m - 1], cs, faults[m - 1], states[m]);
      AttemptKeeps(states[m - 1], cs, faults[m - 1], states[m], |faults| - m);
    }
  }

  lemma AttemptKeeps(q: Tables, cs: ChangeSet, fault: Fault, r: Tables, room: nat)
    requires Attempted(q, cs, fault, r) && Canonical(q.storage) && HygienicBut(q, cs) && Room(q, room + 1)
    ensures Canonical(r.storage) && HygienicBut(r, cs) && Room(r, room)
    ensures Apply(Abs(r), cs) == Apply(Abs(q), cs)
  {
    var next: nat :| IsCommit(q, next, cs, fault, r);
    if fault != BeforeAccounts {
      AttemptGenerations(q, next, cs, fault, r, room);
      if fault == BeforeStorage {
        TornApplies(q, next, cs, r);
      } else {
        HygienicNoStale(q, cs);
        CommitAppliesIffNoStale(q, next, cs, fault, r);
        ApplyTwice(Abs(q), cs);
      }
    }
  }

  lemma AttemptGenerations(q: Tables, next: nat, cs: ChangeSet, fault: Fault, r: Tables, room: nat)
    requires IsCommit(q, next, cs, fault, r) && fault != BeforeAccounts && HygienicBut(q, cs) && Room(q, room + 1)
    ensures HygienicBut(r, cs) && Room(r, room)
  {
    forall k <- r.storage ensures Destroys(cs, k.address) ||
      (k.address in r.accounts && k.generation <= r.accounts[k.address].generation)
    {
      if fault != BeforeStorage {
        assert Value(r.storage, k) == ValueAfter(q.accounts, q.storage, cs, k);
      }
    }
  }

  /** With only the accounts written, applying the changes again still gives the new
      state. */
  lemma TornApplies(q: Tables, n: nat, cs: ChangeSet, torn: Tables)
    requires HygienicBut(q, cs) && IsCommit(q, n, cs, BeforeStorage, torn)
    ensures Apply(Abs(torn), cs) == Apply(Abs(q), cs)
  {
    forall x ensures Get(Apply(Abs(torn), cs), x) == Get(Apply(Abs(q), cs), x) {
      TornAccount(q, n, cs, torn, x);
    }
    SameWorld(Apply(Abs(torn), cs), Apply(Abs(q), cs));
  }

  lemma TornAccount(q: Tables, n: nat, cs: ChangeSet, torn: Tables, x: Address)
    requires HygienicBut(q, cs) && IsCommit(q, n, cs, BeforeStorage, torn)
    ensures After(Abs(torn), cs, x) == After(Abs(q), cs, x)
  {
    if x in cs && !cs[x].selfdestructed && !cs[x].created {
      TornSlots(q, n, cs, torn, x);
    }
  }

  lemma TornSlots(q: Tables, n: nat, cs: ChangeSet, torn: Tables, x: Address)
    requires HygienicBut(q, cs) && IsCommit(q, n, cs, BeforeStorage, torn)
    requires x in cs && !cs[x].selfdestructed && !cs[x].created
    ensures x in Abs(torn)
    ensures Abs(torn)[x].storage == if x in q.accounts then Abs(q)[x].storage else map[]
  {
    if x !in q.accounts {
      assert forall k <- q.storage :: k.address != x;
    }
  }

  /** A new account with one slot written and destroyed again. */
  function ShortLived(slot: Slot, v: Word): (r: Update) {
    Update(true, true, 1, 0, NO_CODE, None, map[slot := v])
  }

  function Plain(): (r: Update) {
    Update(true, false, 1, 0, NO_CODE, None, map[])
  }

  /** Orphaned slots come back: an account is created, writes a slot and is destroyed in
      one block, then created again in the next. The store reads the old value, the
      replayed state reads zero. */
  lemma OrphanResurrected(q0: Tables, q1: Tables, q2: Tables, n: nat, m: nat, x: Address, slot: Slot, v: Word)
    requires x !in q0.accounts && q0.storage == map[] && v != 0
    requires IsCommit(q0, n, map[x := ShortLived(slot, v)], NoFault, q1)
    requires IsCommit(q1, m, map[x := Plain()], NoFault, q2)
    ensures SlotAt(Abs(q2), x, slot) == v
    ensures SlotAt(Replay(Abs(q0), [map[x := ShortLived(slot, v)], map[x := Plain()]]), x, slot) == 0
  {
    var one: ChangeSet, two: ChangeSet := map[x := ShortLived(slot, v)], map[x := Plain()];
    var k := Key(x, 1, slot);
    assert Value(q1.storage, k) == ValueAfter(q0.accounts, q0.storage, one, k) == v;
    assert Value(q2.storage, k) == ValueAfter(q1.accounts, q1.storage, two, k) == v;
    assert k in q2.storage;
    CreatedReadsZero(Abs(q0), one, x, slot);
  }

  lemma CreatedReadsZero(w: World, one: ChangeSet, x: Address, slot: Slot)
    ensures SlotAt(Replay(w, [one, map[x := Plain()]]), x, slot) == 0
  {
    var two: ChangeSet := map[x := Plain()];
    ReplayAppend(w, [one], two);
    assert [one] + [two] == [one, two];
    assert Get(Apply(Replay(w, [one]), two), x) == After(Replay(w, [one]), two, x);
  }

  // ----- commit sequence markers -----

  /** `PartitionCommitSeqs::is_consistent`. */
  predicate IsConsistent(m: Markers) {
    (m.accounts.None? && m.storage.None? && m.code.None?) ||
    (m.accounts.Some? && m.accounts == m.storage == m.code)
  }

  /** The markers of a store whose last commit, if any, had sequence number `commitSeq`. */
  predicate MarkersAt(m: Markers, commitSeq: nat) {
    m == Markers(Some(commitSeq), Some(commitSeq), Some(commitSeq)) ||
    (commitSeq == 0 && m == Markers(None, None, None))
  }

  /** One attempt to commit a nonempty change set, and where it stopped. */
  datatype Attempt = Attempt(changes: ChangeSet, fault: Fault)

  /** A store with the number of its last completed commit. */
  datatype Store = Store(tables: Tables, commitSeq: nat)

  ghost predicate IsAttempt(q: Store, a: Attempt, r: Store) {
    && IsCommit(q.tables, SaturatingAdd(q.commitSeq, 1), a.changes, a.fault, r.tables)
    && r.commitSeq == if a.fault == NoFault then SaturatingAdd(q.commitSeq, 1) else q.commitSeq
  }

  ghost predicate IsAttempts(states: seq<Store>, attempts: seq<Attempt>) {
    && |states| == |attempts| + 1
    && forall i: nat :: i < |attempts| ==> IsAttempt(states[i], attempts[i], states[i + 1])
  }

  /** The markers after an attempt that stopped short, with any number of such attempts
      before it: the accounts are ahead of the code. */
  predicate MarkersTorn(m: Markers, commitSeq: nat) {
    && commitSeq < U64_MAX
    && m.accounts == Some(commitSeq + 1)
    && (m.code == Some(commitSeq) || (m.code == None && commitSeq == 0))
  }

  /** After `n` attempts, the last that wrote anything completed, or the commit number was
      already at its maximum. */
  predicate LastWriteWhole(states: seq<Store>, attempts: seq<Attempt>, n: nat)
    requires |states| == |attempts| + 1 && n <= |attempts|
  {
    if n == 0 then true
    else if attempts[n - 1].fault == BeforeAccounts then LastWriteWhole(states, attempts, n - 1)
    else attempts[n - 1].fault == NoFault || states[n - 1].commitSeq == U64_MAX
  }

  predicate MarkersAre(q: Store, whole: bool) {
    if whole then MarkersAt(q.tables.markers, q.commitSeq) else MarkersTorn(q.tables.markers, q.commitSeq)
  }

  lemma AttemptMarkers(q: Store, a: Attempt, r: Store, whole: bool)
    requires IsAttempt(q, a, r) && q.commitSeq <= U64_MAX && MarkersAre(q, whole)
    ensures r.commitSeq <= U64_MAX
    ensures MarkersAre(r, if a.fault == BeforeAccounts then whole else a.fault == NoFault || q.commitSeq == U64_MAX)
  {
  }

  lemma {:induction false} RunMarkers(states: seq<Store>, attempts: seq<Attempt>, n: nat)
    requires IsAttempts(states, attempts) && n <= |attempts|
    requires states[0].commitSeq <= U64_MAX && MarkersAt(states[0].tables.markers, states[0].commitSeq)
    ensures states[n].commitSeq <= U64_MAX && MarkersAre(states[n], LastWriteWhole(states, attempts, n))
  {
    if n > 0 {
      RunMarkers(states, attempts, n - 1);
      assert IsAttempt(states[n - 1], attempts[n - 1], states[n]);
      AttemptMarkers(states[n - 1], attempts[n - 1], states[n], LastWriteWhole(states, attempts, n - 1));
    }
  }

  /** After any run of attempts, faults and retries, the start-up check accepts the store
      if and only if the last attempt that wrote anything completed, or the commit number
      was already at its maximum then, where a torn commit goes unnoticed. */
  lemma ConsistentIffWhole(states: seq<Store>, attempts: seq<Attempt>)
    requires IsAttempts(states, attempts)
    requires states[0].commitSeq <= U64_MAX && MarkersAt(states[0].tables.markers, states[0].commitSeq)
    ensures IsConsistent(states[|attempts|].tables.markers) <==> LastWriteWhole(states, attempts, |attempts|)
  {
    RunMarkers(states, attempts, |attempts|);
  }
}
