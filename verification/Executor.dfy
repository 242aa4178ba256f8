/** The block executor: run the transactions of a block one after the other, keep
    receipts and gas, and merge the extracted state changes. The EVM itself is a
    parameter that maps a state and a transaction to a result. */
module Executor {
  import opened Prelude
  import opened StateChanges

  datatype EvmSlot = EvmSlot(original: Word, present: Word)

  datatype EvmAccount = EvmAccount(
    touched: bool,
    created: bool,
    selfdestructed: bool,
    nonce: nat,
    balance: nat,
    codeHash: Hash,
    code: Option<seq<nat>>,
    storage: map<Slot, EvmSlot>)

  type EvmState = map<Address, EvmAccount>

  // ----- extraction -----

  /** Present values of the slots a transaction loaded. */
  function Present(m: map<Slot, EvmSlot>): (r: map<Slot, Word>) {
    map s | s in m :: m[s].present
  }

  /** Present values of the slots a transaction changed. */
  function Changed(m: map<Slot, EvmSlot>): (r: map<Slot, Word>) {
    map s | s in m && m[s].original != m[s].present :: m[s].present
  }

  function UpdateOf(a: EvmAccount): (r: Update) {
    Update(a.created, a.selfdestructed, a.nonce, a.balance, a.codeHash, a.code, Changed(a.storage))
  }

  function Extract(st: EvmState): (r: ChangeSet) {
    map x | x in st && st[x].touched :: UpdateOf(st[x])
  }

  /** `extract_changes`. */
  method ExtractChanges(st: EvmState) returns (r: ChangeSet)
    ensures r == Extract(st)
  {
    r := map[];
    var todo := st.Keys;
    while todo != {}
      invariant todo <= st.Keys
      invariant r == Extract(map x | x in st.Keys - todo :: st[x])
    {
      var x :| x in todo;
      todo := todo - {x};
      if !st[x].touched {
        continue;
      }
      r := r[x := UpdateOf(st[x])];
    }
    assert (map x | x in st.Keys :: st[x]) == st;
  }

  /** What committing a transaction's EVM state makes of the world: touched accounts
      only, with every loaded slot written back. */
  function CommitAccount(pre: Option<Account>, a: EvmAccount): (r: Option<Account>) {
    if !a.touched then pre
    else if a.selfdestructed then None
    else
      var kept := if a.created || pre.None? then map[] else pre.value.storage;
      Some(Account(a.nonce, a.balance, a.codeHash, NonZero(kept + Present(a.storage))))
  }

  function CommitAt(w: World, st: EvmState, x: Address): (r: Option<Account>) {
    if x in st then CommitAccount(Get(w, x), st[x]) else Get(w, x)
  }

  function EvmCommit(w: World, st: EvmState): (r: World)
    ensures forall x :: Get(r, x) == CommitAt(w, st, x)
  {
    map x | x in w.Keys + st.Keys && CommitAt(w, st, x).Some? :: CommitAt(w, st, x).value
  }

  /** A slot left unchanged holds what the state below holds, zero for a new account. */
  predicate Coherent(w: World, st: EvmState) {
    forall x <- st :: st[x].touched && !st[x].selfdestructed ==>
      forall s <- st[x].storage :: st[x].storage[s].original == st[x].storage[s].present ==>
        st[x].storage[s].present == if st[x].created then 0 else SlotAt(w, x, s)
  }

  lemma ExtractAccount(w: World, st: EvmState, x: Address)
    requires x in st && st[x].touched && !st[x].selfdestructed
    ensures CommitAt(w, st, x) == After(w, Extract(st), x) <==>
      forall s <- st[x].storage :: st[x].storage[s].original == st[x].storage[s].present ==>
        st[x].storage[s].present == if st[x].created then 0 else SlotAt(w, x, s)
  {
    var a := st[x];
    var kept := if a.created || x !in w then map[] else w[x].storage;
    var all, some := kept + Present(a.storage), kept + Changed(a.storage);
    if s :| s in a.storage && a.storage[s].original == a.storage[s].present && a.storage[s].present != Load(kept, s) {
      assert Load(NonZero(all), s) != Load(NonZero(some), s);
    } else {
      forall s ensures Load(all, s) == Load(some, s) {}
      NonZeroEqual(all, some);
    }
  }

  /** Dropping untouched accounts and unchanged slots loses nothing, if and only if the
      EVM state is coherent with the state it ran on. */
  lemma ExtractFaithfulIffCoherent(w: World, st: EvmState)
    ensures EvmCommit(w, st) == Apply(w, Extract(st)) <==> Coherent(w, st)
  {
    var a, b := EvmCommit(w, st), Apply(w, Extract(st));
    if Coherent(w, st) {
      forall x ensures Get(a, x) == Get(b, x) {
        if x in st && st[x].touched && !st[x].selfdestructed {
          ExtractAccount(w, st, x);
        }
      }
      SameWorld(a, b);
    } else {
      var x :| x in st && st[x].touched && !st[x].selfdestructed && !forall s <- st[x].storage ::
        st[x].storage[s].original == st[x].storage[s].present ==>
        st[x].storage[s].present == if st[x].created then 0 else SlotAt(w, x, s);
      ExtractAccount(w, st, x);
      assert Get(a, x) == CommitAt(w, st, x) && Get(b, x) == After(w, Extract(st), x);
    }
  }

  // ----- block execution -----

  datatype TxEnv = TxEnv(gasLimit: nat, call: nat)

  /** A transaction's hash and what its bytes decode to. */
  datatype Tx = Tx(hash: Hash, env: Option<TxEnv>)

  datatype Ending = Success(logs: seq<nat>, created: Option<Address>) | Revert | Halt

  datatype Run = Rejected | Ran(ending: Ending, gasUsed: nat, state: EvmState)

  type Evm = (World, TxEnv) -> Run

  datatype Receipt = Receipt(
    txHash: Hash,
    success: bool,
    gasUsed: nat,
    cumulativeGas: nat,
    logs: seq<nat>,
    contractAddress: Option<Address>)

  /** `selfdestructed` counts, for each address, the transactions that destroyed it. */
  datatype Outcome = Outcome(changes: ChangeSet, receipts: seq<Receipt>, gasUsed: nat, selfdestructed: multiset<Address>)

  datatype ExecutionError = StateCommit | HookFailed(reason: nat)

  /** What the hooks before and after the transactions return. */
  datatype Hooks = Hooks(
    pre: Result<ChangeSet, ExecutionError>,
    post: seq<Receipt> -> Result<ChangeSet, ExecutionError>)

  /** A transaction never uses more gas than it declares. */
  ghost predicate GasHonest(evm: Evm) {
    forall w, e :: evm(w, e).Ran? ==> evm(w, e).gasUsed <= e.gasLimit
  }

  function RunTx(evm: Evm, w: World, tx: Tx): (r: Run) {
    if tx.env.None? then Rejected else evm(w, tx.env.value)
  }

  /** The state after the first `n` transactions, each committed in turn. */
  function StateAfter(evm: Evm, w: World, txs: seq<Tx>, n: nat): (r: World)
    requires n <= |txs|
  {
    if n == 0 then w
    else
      var pre := StateAfter(evm, w, txs, n - 1);
      match RunTx(evm, pre, txs[n - 1])
      case Rejected => pre
      case Ran(_, _, st) => EvmCommit(pre, st)
  }

  /** The run of transaction `i`. */
  function RunAt(evm: Evm, w: World, txs: seq<Tx>, i: nat): (r: Run)
    requires i < |txs|
  {
    RunTx(evm, StateAfter(evm, w, txs, i), txs[i])
  }

  function GasAt(evm: Evm, w: World, txs: seq<Tx>, i: nat): (r: nat)
    requires i < |txs|
  {
    match RunAt(evm, w, txs, i) case Rejected => 0 case Ran(_, gas, _) => gas
  }

  /** Gas used by the first `n` transactions together. */
  function GasSum(evm: Evm, w: World, txs: seq<Tx>, n: nat): (r: nat)
    requires n <= |txs|
  {
    if n == 0 then 0 else SaturatingAdd(GasSum(evm, w, txs, n - 1), GasAt(evm, w, txs, n - 1))
  }

  /** The same sum without the width of the counter. */
  function PlainSum(evm: Evm, w: World, txs: seq<Tx>, n: nat): (r: nat)
    requires n <= |txs|
  {
    if n == 0 then 0 else PlainSum(evm, w, txs, n - 1) + GasAt(evm, w, txs, n - 1)
  }

  /** The change sets of the transactions that ran, in order. */
  function TxChanges(evm: Evm, w: World, txs: seq<Tx>, n: nat): (r: seq<ChangeSet>)
    requires n <= |txs|
  {
    if n == 0 then []
    else
      TxChanges(evm, w, txs, n - 1) +
      match RunAt(evm, w, txs, n - 1) case Rejected => [] case Ran(_, _, st) => [Extract(st)]
  }

  function DestroyedIn(st: EvmState): (r: multiset<Address>) {
    multiset(set x | x in st && st[x].selfdestructed)
  }

  function DestroyedBy(run: Run): (r: multiset<Address>) {
    match run case Rejected => multiset{} case Ran(_, _, st) => DestroyedIn(st)
  }

  /** The accounts the first `n` transactions destroyed. */
  function Destroyed(evm: Evm, w: World, txs: seq<Tx>, n: nat): (r: multiset<Address>)
    requires n <= |txs|
  {
    if n == 0 then multiset{} else Destroyed(evm, w, txs, n - 1) + DestroyedBy(RunAt(evm, w, txs, n - 1))
  }

  /** The EVM state of transaction `i`, if it ran, is coherent with the state it ran on. */
  predicate CoherentAt(evm: Evm, w: World, txs: seq<Tx>, i: nat)
    requires i < |txs|
  {
    RunAt(evm, w, txs, i).Ran? ==> Coherent(StateAfter(evm, w, txs, i), RunAt(evm, w, txs, i).state)
  }

  predicate CoherentThrough(evm: Evm, w: World, txs: seq<Tx>, n: nat)
    requires n <= |txs|
  {
    n == 0 || (CoherentThrough(evm, w, txs, n - 1) && CoherentAt(evm, w, txs, n - 1))
  }

  /** Whether transaction `i` may still enter the block. */
  predicate Fits(evm: Evm, w: World, txs: seq<Tx>, gasLimit: nat, i: nat)
    requires i < |txs|
  {
    txs[i].env.Some? ==> SaturatingAdd(GasSum(evm, w, txs, i), txs[i].env.value.gasLimit) <= gasLimit
  }

  /** The counter never saturates in a block whose gas limit is below its width. */
  lemma {:induction false} GasSumIsPlain(evm: Evm, w: World, txs: seq<Tx>, gasLimit: nat, n: nat)
    requires n <= |txs| && gasLimit < U64_MAX && GasHonest(evm)
    requires forall i: nat :: i < n ==> Fits(evm, w, txs, gasLimit, i)
    ensures GasSum(evm, w, txs, n) == PlainSum(evm, w, txs, n) <= gasLimit
  {
    if n > 0 {
      GasSumIsPlain(evm, w, txs, gasLimit, n - 1);
      GasFits(evm, w, txs, gasLimit, n - 1);
    }
  }

  lemma GasFits(evm: Evm, w: World, txs: seq<Tx>, gasLimit: nat, i: nat)
    requires i < |txs| && gasLimit < U64_MAX && GasHonest(evm) && Fits(evm, w, txs, gasLimit, i)
    requires GasSum(evm, w, txs, i) <= gasLimit
    ensures GasSum(evm, w, txs, i) + GasAt(evm, w, txs, i) <= gasLimit
  {
  }

  function SkippedReceipt(hash: Hash, cumulative: nat): (r: Receipt) {
    Receipt(hash, false, 0, cumulative, [], None)
  }

  function BuildReceipt(ending: Ending, hash: Hash, gas: nat, cumulative: nat): (r: Receipt) {
    match ending
    case Success(logs, created) => Receipt(hash, true, gas, cumulative, logs, created)
    case Revert => Receipt(hash, false, gas, cumulative, [], None)
    case Halt => Receipt(hash, false, gas, cumulative, [], None)
  }

  /** What receipt `i` of a block says. */
  ghost predicate ReceiptFor(evm: Evm, w: World, txs: seq<Tx>, i: nat, r: Receipt)
    requires i < |txs|
  {
    var run := RunAt(evm, w, txs, i);
    && r.txHash == txs[i].hash
    && r.gasUsed == GasAt(evm, w, txs, i)
    && r.cumulativeGas == GasSum(evm, w, txs, i + 1)
    && (r.success <==> run.Ran? && run.ending.Success?)
    && r.logs == (if r.success then run.ending.logs else [])
    && r.contractAddress == (if r.success then run.ending.created else None)
  }

  ghost predicate ReceiptsFor(evm: Evm, w: World, gasLimit: nat, txs: seq<Tx>, receipts: seq<Receipt>) {
    && |receipts| <= |txs|
    && forall j: nat :: j < |receipts| ==> ReceiptFor(evm, w, txs, j, receipts[j]) && Fits(evm, w, txs, gasLimit, j)
  }

  /** The loop of `execute` after `i` transactions. */
  ghost predicate Progress(evm: Evm, w: World, gasLimit: nat, txs: seq<Tx>, first: ChangeSet, i: nat, db: World, o: Outcome) {
    && ReceiptsFor(evm, w, gasLimit, txs, o.receipts)
    && i == |o.receipts|
    && db == StateAfter(evm, w, txs, i)
    && o.gasUsed == GasSum(evm, w, txs, i) <= gasLimit
    && o.changes == MergeAll([first] + TxChanges(evm, w, txs, i))
    && o.selfdestructed == Destroyed(evm, w, txs, i)
  }

  lemma MoreReceipts(evm: Evm, w: World, gasLimit: nat, txs: seq<Tx>, receipts: seq<Receipt>, last: Receipt)
    requires ReceiptsFor(evm, w, gasLimit, txs, receipts) && |receipts| < |txs|
    requires ReceiptFor(evm, w, txs, |receipts|, last) && Fits(evm, w, txs, gasLimit, |receipts|)
    ensures ReceiptsFor(evm, w, gasLimit, txs, receipts + [last])
  {
  }

  lemma SkipStep(evm: Evm, w: World, gasLimit: nat, txs: seq<Tx>, first: ChangeSet, i: nat, db: World, o: Outcome)
    requires Progress(evm, w, gasLimit, txs, first, i, db, o) && i < |txs|
    requires Fits(evm, w, txs, gasLimit, i) && RunTx(evm, db, txs[i]).Rejected?
    ensures Progress(evm, w, gasLimit, txs, first, i + 1, db,
                     o.(receipts := o.receipts + [SkippedReceipt(txs[i].hash, o.gasUsed)]))
  {
    assert RunAt(evm, w, txs, i).Rejected?;
    SkipMoves(evm, w, txs, i);
    SkipReceipt(evm, w, txs, i);
    MoreReceipts(evm, w, gasLimit, txs, o.receipts, SkippedReceipt(txs[i].hash, o.gasUsed));
  }

  lemma SkipMoves(evm: Evm, w: World, txs: seq<Tx>, i: nat)
    requires i < |txs| && RunAt(evm, w, txs, i).Rejected?
    ensures StateAfter(evm, w, txs, i + 1) == StateAfter(evm, w, txs, i)
    ensures TxChanges(evm, w, txs, i + 1) == TxChanges(evm, w, txs, i)
    ensures Destroyed(evm, w, txs, i + 1) == Destroyed(evm, w, txs, i)
    ensures GasSum(evm, w, txs, i) <= U64_MAX ==> GasSum(evm, w, txs, i + 1) == GasSum(evm, w, txs, i)
  {
  }

  lemma SkipReceipt(evm: Evm, w: World, txs: seq<Tx>, i: nat)
    requires i < |txs| && RunAt(evm, w, txs, i).Rejected?
    ensures ReceiptFor(evm, w, txs, i, SkippedReceipt(txs[i].hash, GasSum(evm, w, txs, i)))
  {
  }

  lemma RunMerges(evm: Evm, w: World, txs: seq<Tx>, first: ChangeSet, i: nat)
    requires i < |txs| && RunAt(evm, w, txs, i).Ran?
    ensures MergeAll([first] + TxChanges(evm, w, txs, i + 1))
      == Merge(MergeAll([first] + TxChanges(evm, w, txs, i)), Extract(RunAt(evm, w, txs, i).state))
  {
    var done, last := [first] + TxChanges(evm, w, txs, i), Extract(RunAt(evm, w, txs, i).state);
    assert [first] + TxChanges(evm, w, txs, i + 1) == done + [last];
    assert (done + [last])[..|done|] == done;
  }

  lemma RunReceipt(evm: Evm, w: World, txs: seq<Tx>, i: nat)
    requires i < |txs| && RunAt(evm, w, txs, i).Ran?
    ensures
      var Ran(ending, gas, _) := RunAt(evm, w, txs, i);
      ReceiptFor(evm, w, txs, i, BuildReceipt(ending, txs[i].hash, gas, SaturatingAdd(GasSum(evm, w, txs, i), gas)))
  {
  }

  lemma RunStep(evm: Evm, w: World, gasLimit: nat, txs: seq<Tx>, first: ChangeSet, i: nat, db: World, o: Outcome)
    requires Progress(evm, w, gasLimit, txs, first, i, db, o) && i < |txs| && GasHonest(evm)
    requires Fits(evm, w, txs, gasLimit, i) && RunTx(evm, db, txs[i]).Ran?
    ensures
      var Ran(ending, gas, st) := RunTx(evm, db, txs[i]);
      var sum := SaturatingAdd(o.gasUsed, gas);
      Progress(evm, w, gasLimit, txs, first, i + 1, EvmCommit(db, st),
               Outcome(Merge(o.changes, Extract(st)), o.receipts + [BuildReceipt(ending, txs[i].hash, gas, sum)], sum,
                       o.selfdestructed + DestroyedIn(st)))
  {
    var Ran(ending, gas, st) := RunAt(evm, w, txs, i);
    assert GasSum(evm, w, txs, i + 1) == SaturatingAdd(o.gasUsed, gas) <= gasLimit;
    RunMerges(evm, w, txs, first, i);
    RunReceipt(evm, w, txs, i);
    MoreReceipts(evm, w, gasLimit, txs, o.receipts, BuildReceipt(ending, txs[i].hash, gas, SaturatingAdd(o.gasUsed, gas)));
  }

  /** What running the transactions of a block yields on top of the changes `first`.
      Receipts line up with transactions, gas is the running sum and stays within the
      block, and the block ends early only at the first decodable transaction whose
      declared gas does not fit. */
  ghost predicate Body(evm: Evm, w: World, gasLimit: nat, txs: seq<Tx>, first: ChangeSet, o: Outcome) {
    && ReceiptsFor(evm, w, gasLimit, txs, o.receipts)
    && (|o.receipts| < |txs| ==> !Fits(evm, w, txs, gasLimit, |o.receipts|))
    && o.gasUsed == GasSum(evm, w, txs, |o.receipts|) <= gasLimit
    && o.changes == MergeAll([first] + TxChanges(evm, w, txs, |o.receipts|))
    && o.selfdestructed == Destroyed(evm, w, txs, |o.receipts|)
  }

  /** That leaves nothing open. */
  lemma BodyIsUnique(evm: Evm, w: World, gasLimit: nat, txs: seq<Tx>, first: ChangeSet, o: Outcome, q: Outcome)
    requires Body(evm, w, gasLimit, txs, first, o) && Body(evm, w, gasLimit, txs, first, q)
    ensures o == q
  {
    assert |o.receipts| == |q.receipts|;
    forall i | 0 <= i < |o.receipts| ensures o.receipts[i] == q.receipts[i] {
      assert ReceiptFor(evm, w, txs, i, o.receipts[i]) && ReceiptFor(evm, w, txs, i, q.receipts[i]);
    }
    assert o.receipts == q.receipts;
  }

  /** The transaction loop of `execute`. */
  method ExecuteTxs(evm: Evm, w: World, gasLimit: nat, txs: seq<Tx>, first: ChangeSet) returns (o: Outcome)
    requires GasHonest(evm)
    ensures Body(evm, w, gasLimit, txs, first, o)
  {
    var start := MergeInto(map[], first);
    o := Outcome(start, [], 0, multiset{});
    OneMerge(first);
    var db := w;
    var i := 0;
    while i < |txs|
      invariant Progress(evm, w, gasLimit, txs, first, i, db, o)
    {
      var tx := txs[i];
      if tx.env.None? {
        SkipStep(evm, w, gasLimit, txs, first, i, db, o);
        o := o.(receipts := o.receipts + [SkippedReceipt(tx.hash, o.gasUsed)]);
        i := i + 1;
        continue;
      }
      if SaturatingAdd(o.gasUsed, tx.env.value.gasLimit) > gasLimit {
        break;
      }
      match evm(db, tx.env.value) {
        case Rejected =>
          SkipStep(evm, w, gasLimit, txs, first, i, db, o);
          o := o.(receipts := o.receipts + [SkippedReceipt(tx.hash, o.gasUsed)]);
        case Ran(ending, gas, st) =>
          RunStep(evm, w, gasLimit, txs, first, i, db, o);
          var cumulative := SaturatingAdd(o.gasUsed, gas);
          var extracted := ExtractChanges(st);
          var merged := MergeInto(o.changes, extracted);
          db := EvmCommit(db, st);
          o := Outcome(merged, o.receipts + [BuildReceipt(ending, tx.hash, gas, cumulative)], cumulative,
                       o.selfdestructed + DestroyedIn(st));
      }
      i := i + 1;
    }
  }

  lemma OneMerge(first: ChangeSet)
    ensures MergeAll([first] + []) == Merge(map[], first)
  {
    assert [first] + [] == [first] && [first][..0] == [];
    assert MergeAll([]) == map[];
  }

  /** The outcome once the hook after the transactions has answered. */
  function Closed(o: Outcome, post: Result<ChangeSet, ExecutionError>): (r: Result<Outcome, ExecutionError>) {
    match post
    case Err(e) => Err(e)
    case Ok(changes) => Ok(o.(changes := Merge(o.changes, changes)))
  }

  /** `execute`. A failing first hook comes before everything, a lost state commit before
      the second hook; otherwise the second hook sees the receipts of the block and its
      changes come last. */
  method Execute(evm: Evm, w: World, gasLimit: nat, txs: seq<Tx>, hooks: Hooks, commitLost: bool) returns (r: Result<Outcome, ExecutionError>)
    requires GasHonest(evm)
    ensures hooks.pre.Err? ==> r == Err(hooks.pre.error)
    ensures hooks.pre.Ok? && commitLost ==> r == Err(StateCommit)
    ensures hooks.pre.Ok? && !commitLost ==>
      exists o :: Body(evm, w, gasLimit, txs, hooks.pre.value, o) && r == Closed(o, hooks.post(o.receipts))
  {
    if hooks.pre.Err? {
      return Err(hooks.pre.error);
    }
    var o := ExecuteTxs(evm, w, gasLimit, txs, hooks.pre.value);
    if commitLost {
      return Err(StateCommit);
    }
    var post := hooks.post(o.receipts);
    if post.Err? {
      return Err(post.error);
    }
    var merged := MergeInto(o.changes, post.value);
    r := Ok(o.(changes := merged));
    assert r == Closed(o, hooks.post(o.receipts));
  }

  lemma OneTxReplay(evm: Evm, w: World, txs: seq<Tx>, n: nat)
    requires n < |txs| && CoherentAt(evm, w, txs, n)
    requires StateAfter(evm, w, txs, n) == Replay(w, TxChanges(evm, w, txs, n))
    ensures StateAfter(evm, w, txs, n + 1) == Replay(w, TxChanges(evm, w, txs, n + 1))
  {
    var pre, done, run := StateAfter(evm, w, txs, n), TxChanges(evm, w, txs, n), RunAt(evm, w, txs, n);
    if run.Ran? {
      ExtractFaithfulIffCoherent(pre, run.state);
      ReplayAppend(w, done, Extract(run.state));
      assert TxChanges(evm, w, txs, n + 1) == done + [Extract(run.state)];
    } else {
      assert TxChanges(evm, w, txs, n + 1) == done + [] == done;
    }
  }

  /** Committing each transaction's EVM state in turn is the replay of the extracted
      change sets. */
  lemma {:induction false} StateIsReplay(evm: Evm, w: World, txs: seq<Tx>, n: nat)
    requires n <= |txs| && CoherentThrough(evm, w, txs, n)
    ensures StateAfter(evm, w, txs, n) == Replay(w, TxChanges(evm, w, txs, n))
  {
    if n == 0 {
      assert TxChanges(evm, w, txs, n) == [];
    } else {
      StateIsReplay(evm, w, txs, n - 1);
      OneTxReplay(evm, w, txs, n - 1);
    }
  }

  /** The merged change set of a block, applied to the parent state, gives the state the
      transactions left behind, when the merges on the way were safe; hooks that return
      nothing, as they do by default, do not matter. */
  lemma MergedBlockMeansExecution(evm: Evm, w: World, txs: seq<Tx>, n: nat)
    requires n <= |txs| && CoherentThrough(evm, w, txs, n)
    requires ChainSafe(TxChanges(evm, w, txs, n))
    ensures Apply(w, MergeAll(TxChanges(evm, w, txs, n))) == StateAfter(evm, w, txs, n)
    ensures MergeAll(BlockChanges(evm, w, txs, n, map[], map[])) == MergeAll(TxChanges(evm, w, txs, n))
  {
    IdleHooks(TxChanges(evm, w, txs, n));
    StateIsReplay(evm, w, txs, n);
    SafeChainMeansReplay(TxChanges(evm, w, txs, n));
  }

  /** The change sets a block merges: those of the first hook, of its transactions and of
      the second hook. */
  function BlockChanges(evm: Evm, w: World, txs: seq<Tx>, n: nat, pre: ChangeSet, post: ChangeSet): (r: seq<ChangeSet>)
    requires n <= |txs|
  {
    [pre] + TxChanges(evm, w, txs, n) + [post]
  }

  /** The changes of a successful block are the merge of these, and applying them replays
      the hook, the transactions and the other hook, when the merges were safe. */
  lemma BlockMeansReplay(evm: Evm, w: World, gasLimit: nat, txs: seq<Tx>, pre: ChangeSet, post: ChangeSet, o: Outcome)
    requires Body(evm, w, gasLimit, txs, pre, o)
    ensures var css := BlockChanges(evm, w, txs, |o.receipts|, pre, post);
      && Closed(o, Ok(post)).value.changes == MergeAll(css)
      && (ChainSafe(css) ==> Apply(w, MergeAll(css)) == Apply(Replay(Apply(w, pre), TxChanges(evm, w, txs, |o.receipts|)), post))
  {
    WrappedReplay(w, pre, TxChanges(evm, w, txs, |o.receipts|), post);
  }

  lemma WrappedReplay(w: World, pre: ChangeSet, done: seq<ChangeSet>, post: ChangeSet)
    ensures var css := [pre] + done + [post];
      && Merge(MergeAll([pre] + done), post) == MergeAll(css)
      && (ChainSafe(css) ==> Apply(w, MergeAll(css)) == Apply(Replay(Apply(w, pre), done), post))
  {
    var css := [pre] + done + [post];
    assert css[..|css| - 1] == [pre] + done;
    if ChainSafe(css) {
      SafeChainMeansReplay(css);
      ReplayAppend(w, [pre] + done, post);
      ReplayCons(w, pre, done);
    }
  }

  lemma {:induction false} ReplayCons(w: World, pre: ChangeSet, css: seq<ChangeSet>)
    ensures Replay(w, [pre] + css) == Replay(Apply(w, pre), css)
  {
    if css == [] {
      assert [pre] + css == [] + [pre];
      ReplayAppend(w, [], pre);
    } else {
      var init, last := css[..|css| - 1], css[|css| - 1];
      assert css == init + [last] && [pre] + css == ([pre] + init) + [last];
      ReplayCons(w, pre, init);
      ReplayAppend(w, [pre] + init, last);
      ReplayAppend(Apply(w, pre), init, last);
    }
  }

  /** Hooks that change nothing leave the block's changes alone. */
  lemma {:induction false} IdleHooks(css: seq<ChangeSet>)
    ensures MergeAll([map[]] + css) == MergeAll(css) && MergeAll([map[]] + css + [map[]]) == MergeAll(css)
  {
    if css != [] {
      var init, last := css[..|css| - 1], css[|css| - 1];
      assert css == init + [last] && ([map[]] + css)[..|css|] == [map[]] + init;
      IdleHooks(init);
    } else {
      assert ([map[]] + css)[..0] == [];
    }
    assert ([map[]] + css + [map[]])[..|css| + 1] == [map[]] + css;
    assert Merge(MergeAll(css), map[]) == MergeAll(css);
  }

  // ----- log numbering -----

  datatype IndexedLog = IndexedLog(data: nat, logIndex: nat, txIndex: nat)
  datatype IndexedReceipt = IndexedReceipt(txHash: Hash, txIndex: nat, cumulativeGas: nat, logs: seq<IndexedLog>)

  /** All logs of the indexed receipts, in receipt order. */
  function Flat(rs: seq<IndexedReceipt>): (r: seq<IndexedLog>) {
    if rs == [] then [] else Flat(rs[..|rs| - 1]) + rs[|rs| - 1].logs
  }

  /** Logs of the receipts whose transaction metadata decoded. */
  function LogsOf(receipts: seq<Receipt>, decoded: seq<bool>): (r: seq<nat>)
    requires |receipts| <= |decoded|
  {
    if receipts == [] then []
    else
      var n := |receipts| - 1;
      LogsOf(receipts[..n], decoded) + if decoded[n] then receipts[n].logs else []
  }

  /** An index entry repeats the receipt at its transaction's position. */
  predicate IndexEntryOf(receipts: seq<Receipt>, e: IndexedReceipt) {
    && e.txIndex < |receipts|
    && e.txHash == receipts[e.txIndex].txHash
    && e.cumulativeGas == receipts[e.txIndex].cumulativeGas
    && forall l <- e.logs :: l.txIndex == e.txIndex
  }

  /** The log numbering of `index_finalized_block`: log indices count up from zero over
      the whole block without gaps, in receipt order, and keep every log. */
  method IndexReceipts(receipts: seq<Receipt>, decoded: seq<bool>) returns (r: seq<IndexedReceipt>)
    requires |receipts| <= |decoded|
    ensures |Flat(r)| == |LogsOf(receipts, decoded)|
    ensures forall k: nat :: k < |Flat(r)| ==>
      Flat(r)[k].logIndex == k && Flat(r)[k].data == LogsOf(receipts, decoded)[k]
    ensures forall e <- r :: IndexEntryOf(receipts, e)
  {
    r := [];
    var next := 0;
    for i := 0 to |receipts|
      invariant next == |Flat(r)| == |LogsOf(receipts[..i], decoded)|
      invariant forall k: nat :: k < |Flat(r)| ==>
        Flat(r)[k].logIndex == k && Flat(r)[k].data == LogsOf(receipts[..i], decoded)[k]
      invariant forall e <- r :: IndexEntryOf(receipts, e)
    {
      assert receipts[..i + 1][..i] == receipts[..i];
      if decoded[i] {
        var logs: seq<IndexedLog> := [];
        ghost var first := next;
        for j := 0 to |receipts[i].logs|
          invariant |logs| == j && next == first + j
          invariant forall k: nat :: k < j ==> logs[k] == IndexedLog(receipts[i].logs[k], first + k, i)
        {
          logs := logs + [IndexedLog(receipts[i].logs[j], next, i)];
          next := next + 1;
        }
        var entry := IndexedReceipt(receipts[i].txHash, i, receipts[i].cumulativeGas, logs);
        assert (r + [entry])[..|r|] == r;
        r := r + [entry];
      }
    }
    assert receipts[..|receipts|] == receipts;
  }

  /** Only undecodable transactions are left out of the index and those have no logs, so
      the index holds every log of the block. */
  lemma {:induction false} IndexKeepsAllLogs(evm: Evm, w: World, txs: seq<Tx>, receipts: seq<Receipt>, decoded: seq<bool>)
    requires |receipts| <= |txs| == |decoded|
    requires forall i: nat :: i < |receipts| ==> ReceiptFor(evm, w, txs, i, receipts[i])
    requires forall i: nat :: i < |receipts| ==> txs[i].env.Some? ==> decoded[i]
    ensures LogsOf(receipts, decoded) == LogsOf(receipts, seq(|txs|, _ => true))
  {
    if receipts != [] {
      var n := |receipts| - 1;
      assert forall i: nat :: i < n ==> receipts[..n][i] == receipts[i];
      IndexKeepsAllLogs(evm, w, txs, receipts[..n], decoded);
      assert ReceiptFor(evm, w, txs, n, receipts[n]);
    }
  }
}
