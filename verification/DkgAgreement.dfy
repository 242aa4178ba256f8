/** What a participant keeps over any run, agreement on the dealer logs, and what each
    message offers. */
module DkgAgreement {
  import opened Prelude
  import opened Dkg

  // ----- runs of one participant -----

  datatype Event =
    | Start(pub: PubMsg, shares: seq<(Key, PrivMsg)>)
    | Receive(from: Key, bytes: Bytes)
    | SignalReady
    | FinalizeDealer
    | Drain

  function Next(c: Config, s: Participant, e: Event): (r: Participant) {
    match e
    case Start(pub, shares) => StartedDealer(c, s, pub, shares)
    case Receive(from, bytes) => HandleBytes(c, s, from, bytes).0
    case SignalReady => BroadcastReady(c, s)
    case FinalizeDealer => FinalizedDealer(c, s).0
    case Drain => s.(outgoing := [])
  }

  function Run(c: Config, s: Participant, events: seq<Event>): (r: Participant) {
    if events == [] then s else Next(c, Run(c, s, events[..|events| - 1]), events[|events| - 1])
  }

  // ----- the invariant -----

  /** The verified and the signed logs have the same participants as keys, and each is
      the opening of the other. */
  ghost predicate LogsOk(c: Config, s: Participant) {
    && s.logs.Keys == s.signed.Keys
    && s.logs.Keys <= Elems(c.participants)
    && forall d <- s.logs :: c.check(s.signed[d]) == Some((d, s.logs[d]))
  }

  ghost predicate KeysOk(c: Config, s: Participant) {
    && s.pubs.Keys <= Elems(c.participants)
    && s.privs.Keys <= Elems(c.participants)
    && s.acksSent <= s.pubs.Keys * s.privs.Keys
    && s.ready <= Elems(c.participants)
  }

  ghost predicate ParticipantOk(c: Config, s: Participant) {
    LogsOk(c, s) && KeysOk(c, s)
  }

  /** Adding logs touches nothing but the logs. */
  lemma {:induction false} AddLogsOnly(c: Config, s: Participant, logs: seq<(Key, SignedLog)>)
    ensures var r := AddLogs(c, s, logs); r == s.(logs := r.logs, signed := r.signed)
    decreases |logs|
  {
    if logs != [] {
      var checked := c.check(logs[0].1);
      AddLogsOnly(c, s, logs[1..]);
      if checked.Some? {
        AddLogsOnly(c, AddLog(s, checked.value.0, checked.value.1, logs[0].1), logs[1..]);
      }
    }
  }

  lemma {:induction false} AddLogsKeeps(c: Config, s: Participant, logs: seq<(Key, SignedLog)>)
    requires LogsOk(c, s)
    ensures LogsOk(c, AddLogs(c, s, logs))
    decreases |logs|
  {
    if logs != [] {
      var checked := c.check(logs[0].1);
      AddLogsKeeps(c, s, logs[1..]);
      if checked.Some? && checked.value.0 in c.participants && checked.value.0 !in s.logs {
        AddLogsKeeps(c, AddLog(s, checked.value.0, checked.value.1, logs[0].1), logs[1..]);
      }
    }
  }

  lemma ProcessedKeeps(c: Config, s: Participant, dealer: Key)
    requires KeysOk(c, s)
    ensures KeysOk(c, Processed(c, s, dealer))
    ensures var r := Processed(c, s, dealer); r == s.(outgoing := r.outgoing, acksSent := r.acksSent)
  {
  }

  /** What the dealer messages touch. */
  lemma PublicOnly(c: Config, s: Participant, from: Key, dealer: Key, pub: PubMsg)
    ensures var r := HandlePublic(c, s, from, dealer, pub).0;
      r == s.(pubs := r.pubs, outgoing := r.outgoing, acksSent := r.acksSent)
  {
  }

  lemma PrivateOnly(c: Config, s: Participant, from: Key, dealer: Key, share: PrivMsg)
    ensures var r := HandlePrivate(c, s, from, dealer, share).0;
      r == s.(privs := r.privs, outgoing := r.outgoing, acksSent := r.acksSent)
  {
  }

  lemma PublicKeeps(c: Config, s: Participant, from: Key, dealer: Key, pub: PubMsg)
    requires ParticipantOk(c, s) && from in c.participants
    ensures ParticipantOk(c, HandlePublic(c, s, from, dealer, pub).0)
  {
    if from == dealer && dealer !in s.pubs {
      ProcessedKeeps(c, s.(pubs := s.pubs[dealer := pub]), dealer);
    }
  }

  lemma PrivateKeeps(c: Config, s: Participant, from: Key, dealer: Key, share: PrivMsg)
    requires ParticipantOk(c, s) && from in c.participants
    ensures ParticipantOk(c, HandlePrivate(c, s, from, dealer, share).0)
  {
    if from == dealer && dealer !in s.privs {
      ProcessedKeeps(c, s.(privs := s.privs[dealer := share]), dealer);
    }
  }

  lemma LogKeeps(c: Config, s: Participant, log: SignedLog)
    requires ParticipantOk(c, s)
    ensures ParticipantOk(c, HandleLog(c, s, log).0)
  {
  }

  lemma HandleKeeps(c: Config, s: Participant, from: Key, kind: Kind)
    requires ParticipantOk(c, s)
    ensures ParticipantOk(c, Handle(c, s, from, kind).0)
  {
    if from in c.participants {
      match kind
      case DealerPublic(dealer, pub) => PublicKeeps(c, s, from, dealer, pub);
      case DealerPrivate(dealer, share) => PrivateKeeps(c, s, from, dealer, share);
      case SignedDealerLog(log) => LogKeeps(c, s, log);
      case AllLogs(logs) =>
        AddLogsKeeps(c, s, logs);
        AddLogsOnly(c, s, logs);
      case _ =>
    }
  }

  lemma {:induction false} OwnSharesKeys(c: Config, privs: map<Key, PrivMsg>, shares: seq<(Key, PrivMsg)>)
    ensures privs.Keys <= OwnShares(c, privs, shares).Keys <= privs.Keys + {c.me}
  {
    if shares != [] {
      OwnSharesKeys(c, privs, shares[..|shares| - 1]);
    }
  }

  lemma StartKeeps(c: Config, s: Participant, pub: PubMsg, shares: seq<(Key, PrivMsg)>)
    requires ConfigOk(c) && ParticipantOk(c, s)
    ensures ParticipantOk(c, StartedDealer(c, s, pub, shares))
  {
    OwnSharesKeys(c, s.privs, shares);
    ProcessedKeeps(c, s.(
      outgoing := s.outgoing + [Outgoing(None, DealerPublic(c.me, pub))] + ShareMessages(c, shares),
      privs := OwnShares(c, s.privs, shares), pubs := s.pubs[c.me := pub], dealer := Some(map[])), c.me);
  }

  lemma FinalizeKeeps(c: Config, s: Participant)
    requires ConfigOk(c) && ParticipantOk(c, s)
    ensures ParticipantOk(c, FinalizedDealer(c, s).0)
  {
    if s.dealer.Some? {
      var log := c.seal(s.dealer.value);
      if c.check(log).Some? {
        var plain := c.check(log).value.1;
        assert c.check(log) == Some((c.me, plain));
        AddOwnLog(c, s, log, plain);
      }
    }
  }

  lemma AddOwnLog(c: Config, s: Participant, log: SignedLog, plain: DealerLog)
    requires LogsOk(c, s) && c.me in c.participants && c.check(log) == Some((c.me, plain))
    ensures LogsOk(c, AddLog(s, c.me, plain, log))
  {
  }

  lemma ReceiveKeeps(c: Config, s: Participant, from: Key, bytes: Bytes)
    requires ParticipantOk(c, s)
    ensures ParticipantOk(c, HandleBytes(c, s, from, bytes).0)
  {
    if bytes !in s.seen && c.decode(bytes).Some? {
      HandleKeeps(c, s.(seen := s.seen + {bytes}), from, c.decode(bytes).value.kind);
    }
  }

  lemma NextKeeps(c: Config, s: Participant, e: Event)
    requires ConfigOk(c) && ParticipantOk(c, s)
    ensures ParticipantOk(c, Next(c, s, e))
  {
    match e
    case Start(pub, shares) => StartKeeps(c, s, pub, shares);
    case Receive(from, bytes) => ReceiveKeeps(c, s, from, bytes);
    case FinalizeDealer => FinalizeKeeps(c, s);
    case _ =>
  }

  lemma {:induction false} RunKeeps(c: Config, s: Participant, events: seq<Event>)
    requires ConfigOk(c) && ParticipantOk(c, s)
    ensures ParticipantOk(c, Run(c, s, events))
  {
    if events != [] {
      RunKeeps(c, s, events[..|events| - 1]);
      NextKeeps(c, Run(c, s, events[..|events| - 1]), events[|events| - 1]);
    }
  }

  // ----- agreement -----

  function LogsIn(kind: Kind): (r: set<SignedLog>) {
    if kind.SignedDealerLog? then {kind.log}
    else if kind.AllLogs? then set e | e in kind.logs :: e.1
    else {}
  }

  /** Every signed log the event brings in was issued. */
  ghost predicate Brings(c: Config, s: Participant, e: Event, issued: set<SignedLog>) {
    && (e.Receive? && c.decode(e.bytes).Some? ==> LogsIn(c.decode(e.bytes).value.kind) <= issued)
    && (e.FinalizeDealer? && s.dealer.Some? ==> c.seal(s.dealer.value) in issued)
  }

  ghost predicate BroughtFrom(c: Config, s: Participant, events: seq<Event>, issued: set<SignedLog>) {
    events == [] ||
    var init := events[..|events| - 1];
    BroughtFrom(c, s, init, issued) && Brings(c, Run(c, s, init), events[|events| - 1], issued)
  }

  ghost predicate SignedIssued(s: Participant, issued: set<SignedLog>) {
    forall d <- s.signed :: s.signed[d] in issued
  }

  lemma {:induction false} AddLogsIssued(c: Config, s: Participant, logs: seq<(Key, SignedLog)>, issued: set<SignedLog>)
    requires SignedIssued(s, issued) && forall e <- logs :: e.1 in issued
    ensures SignedIssued(AddLogs(c, s, logs), issued)
    decreases |logs|
  {
    if logs != [] {
      var checked := c.check(logs[0].1);
      AddLogsIssued(c, s, logs[1..], issued);
      if checked.Some? {
        AddLogsIssued(c, AddLog(s, checked.value.0, checked.value.1, logs[0].1), logs[1..], issued);
      }
    }
  }

  lemma OtherKindsKeepLogs(c: Config, s: Participant, from: Key, kind: Kind)
    requires !kind.AllLogs? && !kind.SignedDealerLog?
    ensures Handle(c, s, from, kind).0.signed == s.signed
  {
    match kind
    case DealerPublic(dealer, pub) => PublicOnly(c, s, from, dealer, pub);
    case DealerPrivate(dealer, share) => PrivateOnly(c, s, from, dealer, share);
    case _ =>
  }

  lemma HandleIssued(c: Config, s: Participant, from: Key, kind: Kind, issued: set<SignedLog>)
    requires SignedIssued(s, issued) && LogsIn(kind) <= issued
    ensures SignedIssued(Handle(c, s, from, kind).0, issued)
  {
    if kind.AllLogs? {
      forall x <- kind.logs ensures x.1 in issued {
        assert x.1 in LogsIn(kind);
      }
      AddLogsIssued(c, s, kind.logs, issued);
    } else if kind.SignedDealerLog? {
      assert kind.log in LogsIn(kind);
    } else {
      OtherKindsKeepLogs(c, s, from, kind);
    }
  }

  lemma NextIssued(c: Config, s: Participant, e: Event, issued: set<SignedLog>)
    requires SignedIssued(s, issued) && Brings(c, s, e, issued)
    ensures SignedIssued(Next(c, s, e), issued)
  {
    match e
    case Receive(from, bytes) =>
      if c.decode(bytes).Some? {
        HandleIssued(c, s.(seen := s.seen + {bytes}), from, c.decode(bytes).value.kind, issued);
      }
    case Start(pub, shares) => assert StartedDealer(c, s, pub, shares).signed == s.signed;
    case _ =>
  }

  lemma {:induction false} RunIssued(c: Config, s: Participant, events: seq<Event>, issued: set<SignedLog>)
    requires SignedIssued(s, issued) && BroughtFrom(c, s, events, issued)
    ensures SignedIssued(Run(c, s, events), issued)
  {
    if events != [] {
      var init := events[..|events| - 1];
      RunIssued(c, s, init, issued);
      NextIssued(c, Run(c, s, init), events[|events| - 1], issued);
    }
  }

  /** Each dealer signed at most one of the issued logs. */
  ghost predicate OnePerDealer(c: Config, issued: set<SignedLog>) {
    forall x <- issued, y <- issued ::
      c.check(x).Some? && c.check(y).Some? && c.check(x).value.0 == c.check(y).value.0 ==> x == y
  }

  /** A participant that may finalize has exactly one log per participant. */
  lemma FinalizableHasAll(c: Config, s: Participant)
    requires ConfigOk(c) && LogsOk(c, s)
    ensures CanFinalize(c, s) <==> s.logs.Keys == Elems(c.participants)
  {
    DistinctSize(c.participants);
    if CanFinalize(c, s) {
      FullSubset(s.logs.Keys, Elems(c.participants));
    }
  }

  /** Two participants that may finalize, after any runs over issued logs, hold the same
      log for every dealer, and hold one for each. */
  lemma Agreement(c1: Config, c2: Config, events1: seq<Event>, events2: seq<Event>, issued: set<SignedLog>)
    requires ConfigOk(c1) && ConfigOk(c2) && c1.check == c2.check
    requires Elems(c1.participants) == Elems(c2.participants)
    requires BroughtFrom(c1, FRESH, events1, issued) && BroughtFrom(c2, FRESH, events2, issued)
    requires OnePerDealer(c1, issued)
    requires CanFinalize(c1, Run(c1, FRESH, events1)) && CanFinalize(c2, Run(c2, FRESH, events2))
    ensures Run(c1, FRESH, events1).logs == Run(c2, FRESH, events2).logs
    ensures Run(c1, FRESH, events1).logs.Keys == Elems(c1.participants)
  {
    var s1, s2 := Run(c1, FRESH, events1), Run(c2, FRESH, events2);
    RunKeeps(c1, FRESH, events1);
    RunKeeps(c2, FRESH, events2);
    RunIssued(c1, FRESH, events1, issued);
    RunIssued(c2, FRESH, events2, issued);
    FinalizableHasAll(c1, s1);
    FinalizableHasAll(c2, s2);
    SameLogs(c1, c2, s1, s2, issued);
  }

  lemma SameLogs(c1: Config, c2: Config, s1: Participant, s2: Participant, issued: set<SignedLog>)
    requires c1.check == c2.check && LogsOk(c1, s1) && LogsOk(c2, s2) && s1.logs.Keys == s2.logs.Keys
    requires SignedIssued(s1, issued) && SignedIssued(s2, issued) && OnePerDealer(c1, issued)
    ensures s1.logs == s2.logs
  {
    forall d <- s1.logs ensures s1.logs[d] == s2.logs[d] {
      assert c1.check(s1.signed[d]) == Some((d, s1.logs[d]));
      assert c2.check(s2.signed[d]) == Some((d, s2.logs[d]));
      assert s1.signed[d] == s2.signed[d];
    }
  }

  // ----- what a message offers -----

  /** The places a participant fills at most once. */
  datatype Cell = PubOf(dealer: Key) | PrivOf(dealer: Key) | LogOf(dealer: Key) | ReadyOf(player: Key)

  predicate Filled(s: Participant, x: Cell) {
    match x
    case PubOf(d) => d in s.pubs
    case PrivOf(d) => d in s.privs
    case LogOf(d) => d in s.signed
    case ReadyOf(p) => p in s.ready
  }

  function Content(s: Participant, x: Cell): (r: nat)
    requires Filled(s, x)
  {
    match x
    case PubOf(d) => s.pubs[d]
    case PrivOf(d) => s.privs[d]
    case LogOf(d) => s.signed[d]
    case ReadyOf(_) => 0
  }

  datatype Envelope = Envelope(from: Key, bytes: Bytes)

  ghost predicate IsLogOf(c: Config, log: SignedLog, d: Key) {
    d in c.participants && c.check(log).Some? && c.check(log).value.0 == d
  }

  /** A message of `kind` from `from` would put `v` into the empty cell `x`. */
  ghost predicate KindOffers(c: Config, from: Key, kind: Kind, x: Cell, v: nat) {
    from in c.participants &&
    match x
    case PubOf(d) => kind == DealerPublic(d, v) && from == d
    case PrivOf(d) => kind == DealerPrivate(d, v) && from == d
    case LogOf(d) => IsLogOf(c, v, d)
      && (kind == SignedDealerLog(v) || (kind.AllLogs? && from == c.participants[0] && v in LogsIn(kind)))
    case ReadyOf(p) => kind == Ready(p) && from == p && v == 0
  }

  /** Bytes that pass decoding and the session check. */
  predicate Admitted(c: Config, bytes: Bytes) {
    match c.decode(bytes)
    case None => false
    case Some(m) => m.session.None? || m.session.value == c.session
  }

  ghost predicate Offers(c: Config, e: Envelope, x: Cell, v: nat) {
    Admitted(c, e.bytes) && KindOffers(c, e.from, c.decode(e.bytes).value.kind, x, v)
  }

  /** One step on cells: filled cells keep their content, what is new was offered, and
      everything offered is filled. */
  ghost predicate FillsTo(c: Config, from: Key, kind: Kind, s: Participant, r: Participant) {
    && (forall x: Cell :: Filled(s, x) ==> Filled(r, x) && Content(r, x) == Content(s, x))
    && (forall x: Cell :: Filled(r, x) && !Filled(s, x) ==> KindOffers(c, from, kind, x, Content(r, x)))
    && (forall x: Cell, v: nat :: KindOffers(c, from, kind, x, v) ==> Filled(r, x))
  }

  /** There is always room for a participant that is not there yet. */
  lemma RoomLeft(c: Config, keys: set<Key>, d: Key)
    requires Distinct(c.participants) && keys <= Elems(c.participants) && d in c.participants && d !in keys
    ensures |keys| < |c.participants|
  {
    DistinctSize(c.participants);
    SubsetSize(keys + {d}, Elems(c.participants));
  }

  /** Adding a bundle keeps the logs there were, adds only logs of the bundle, and leaves
      none of its dealers without a log. */
  ghost predicate TakesLogs(c: Config, before: map<Key, SignedLog>, after: map<Key, SignedLog>, logs: seq<(Key, SignedLog)>) {
    && (forall d <- before :: d in after && after[d] == before[d])
    && (forall d <- after :: d !in before ==> IsLogOf(c, after[d], d) && InBundle(logs, after[d]))
    && (forall e <- logs, d: Key :: IsLogOf(c, e.1, d) ==> d in after)
  }

  predicate InBundle(logs: seq<(Key, SignedLog)>, log: SignedLog) {
    exists e <- logs :: e.1 == log
  }

  lemma SkipFirst(c: Config, before: map<Key, SignedLog>, after: map<Key, SignedLog>, logs: seq<(Key, SignedLog)>)
    requires logs != [] && TakesLogs(c, before, after, logs[1..])
    requires c.check(logs[0].1).None? || c.check(logs[0].1).value.0 !in c.participants || c.check(logs[0].1).value.0 in before
    ensures TakesLogs(c, before, after, logs)
  {
    BundleCons(logs);
  }

  lemma TakeFirst(c: Config, before: map<Key, SignedLog>, after: map<Key, SignedLog>, logs: seq<(Key, SignedLog)>, d: Key)
    requires logs != [] && IsLogOf(c, logs[0].1, d) && d !in before
    requires TakesLogs(c, before[d := logs[0].1], after, logs[1..])
    ensures TakesLogs(c, before, after, logs)
  {
    BundleCons(logs);
    assert InBundle(logs, logs[0].1) by { assert logs[0] in logs; }
  }

  lemma BundleCons(logs: seq<(Key, SignedLog)>)
    requires logs != []
    ensures forall e <- logs :: e == logs[0] || e in logs[1..]
    ensures forall log | InBundle(logs[1..], log) :: InBundle(logs, log)
  {
    assert logs == [logs[0]] + logs[1..];
    forall log | InBundle(logs[1..], log) ensures InBundle(logs, log) {
      var e :| e in logs[1..] && e.1 == log;
      assert e in logs;
    }
  }

  lemma {:induction false} AddLogsFills(c: Config, s: Participant, logs: seq<(Key, SignedLog)>)
    requires ConfigOk(c) && LogsOk(c, s)
    ensures TakesLogs(c, s.signed, AddLogs(c, s, logs).signed, logs)
    decreases |logs|
  {
    if logs != [] {
      var checked := c.check(logs[0].1);
      if checked.None? || checked.value.0 !in c.participants {
        AddLogsFills(c, s, logs[1..]);
        SkipFirst(c, s.signed, AddLogs(c, s, logs).signed, logs);
      } else if |s.logs| >= |c.participants| {
        FullMeansAll(c, s);
      } else if checked.value.0 in s.logs {
        AddLogsFills(c, s, logs[1..]);
        SkipFirst(c, s.signed, AddLogs(c, s, logs).signed, logs);
      } else {
        var more := AddLog(s, checked.value.0, checked.value.1, logs[0].1);
        AddLogsFills(c, more, logs[1..]);
        TakeFirst(c, s.signed, AddLogs(c, s, logs).signed, logs, checked.value.0);
      }
    }
  }

  lemma FullMeansAll(c: Config, s: Participant)
    requires ConfigOk(c) && LogsOk(c, s)
    ensures |s.logs| >= |c.participants| ==> forall d <- c.participants :: d in s.signed
  {
    FinalizableHasAll(c, s);
    assert forall d <- c.participants :: d in Elems(c.participants);
  }
}
