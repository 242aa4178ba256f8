/** Runs of the whole ceremony: what every participant must have received before anybody
    finalizes, and agreement on the logs without any assumption on who signed what. */
module DkgSystem {
  import opened Prelude
  import opened Dkg
  import opened DkgBarrier
  import opened DkgAgreement

  // ----- dropped messages -----

  /** The two messages of a dealer: the private one, or the public one. */
  predicate IsDealing(kind: Kind, x: Key, secret: bool) {
    if secret then kind.DealerPrivate? && kind.dealer == x else kind.DealerPublic? && kind.dealer == x
  }

  predicate HasDealing(p: Participant, x: Key, secret: bool) {
    if secret then x in p.privs else x in p.pubs
  }

  /** The step hands `y`, which is listening, one of the two messages of `x`. */
  ghost predicate Hands(s: System, step: Step, y: Key, x: Key, secret: bool) {
    && step.Receive? && step.x == y && step.from == x && y in s.nodes && Listening(s.nodes[y])
    && step.k < |s.sent(x, y)| && IsDealing(s.sent(x, y)[step.k], x, secret)
  }

  ghost predicate Got(z: Ceremony, s: System, steps: seq<Step>, y: Key, x: Key, secret: bool) {
    exists i :: 0 <= i < |steps| && Hands(DkgBarrier.Run(z, s, steps[..i]), steps[i], y, x, secret)
  }

  lemma HandleGains(c: Config, s: Participant, from: Key, kind: Kind, x: Key, secret: bool)
    ensures HasDealing(Handle(c, s, from, kind).0, x, secret) && !HasDealing(s, x, secret)
      ==> from == x && IsDealing(kind, x, secret)
  {
    match kind
    case DealerPublic(dealer, pub) => PublicOnly(c, s, from, dealer, pub);
    case DealerPrivate(dealer, share) => PrivateOnly(c, s, from, dealer, share);
    case AllLogs(logs) => AddLogsOnly(c, s, logs);
    case _ =>
  }

  lemma ReceiveGains(z: Ceremony, s: System, y: Key, from: Key, k: nat, x: Key, secret: bool)
    requires y in s.nodes && ConfigFor(z, y, z.config(y)) && k < |s.sent(from, y)|
    requires !HasDealing(s.nodes[y].part, x, secret) && HasDealing(Received(z, s, y, from, k).nodes[y].part, x, secret)
    ensures from == x && IsDealing(s.sent(x, y)[k], x, secret)
  {
    var c, p, kind := z.config(y), s.nodes[y].part, s.sent(from, y)[k];
    HandleGains(c, p.(seen := p.seen + {z.encode(kind)}), from, kind, x, secret);
  }

  lemma StartGains(z: Ceremony, s: System, y: Key, pub: PubMsg, shares: seq<(Key, PrivMsg)>, x: Key, secret: bool)
    requires y in s.nodes && z.config(y).me == y && x != y
    ensures HasDealing(AfterStart(z, s, y, pub, shares).nodes[y].part, x, secret) ==> HasDealing(s.nodes[y].part, x, secret)
  {
    OwnSharesKeys(z.config(y), s.nodes[y].part.privs, shares);
  }

  lemma DeliveryGains(z: Ceremony, s: System, y: Key, from: Key, k: nat, x: Key, secret: bool)
    requires y in s.nodes && ConfigFor(z, y, z.config(y)) && !HasDealing(s.nodes[y].part, x, secret)
    ensures y in AfterReceive(z, s, y, from, k).nodes
    ensures HasDealing(AfterReceive(z, s, y, from, k).nodes[y].part, x, secret) ==>
      Listening(s.nodes[y]) && from == x && k < |s.sent(x, y)| && IsDealing(s.sent(x, y)[k], x, secret)
  {
    var r := AfterReceive(z, s, y, from, k);
    if Listening(s.nodes[y]) && from in s.nodes && k < |s.sent(from, y)| {
      assert r == Received(z, s, y, from, k);
      if HasDealing(r.nodes[y].part, x, secret) {
        ReceiveGains(z, s, y, from, k, x, secret);
      }
    } else {
      assert r == s;
    }
  }

  lemma OthersUntouched(z: Ceremony, s: System, step: Step, y: Key)
    requires y in s.nodes && step.x != y
    ensures y in DkgBarrier.Next(z, s, step).nodes && DkgBarrier.Next(z, s, step).nodes[y] == s.nodes[y]
  {
  }

  lemma QuietGains(z: Ceremony, s: System, step: Step, y: Key, x: Key, secret: bool)
    requires y in s.nodes && step.x == y && (step.SignalReady? || step.FinalizeDealer? || step.RequestLogs? || step.Abort?)
    ensures y in DkgBarrier.Next(z, s, step).nodes
    ensures HasDealing(DkgBarrier.Next(z, s, step).nodes[y].part, x, secret) == HasDealing(s.nodes[y].part, x, secret)
  {
  }

  /** Only a delivery brings the message of another dealer. */
  lemma NextGains(z: Ceremony, s: System, step: Step, y: Key, x: Key, secret: bool)
    requires ConfigFor(z, y, z.config(y)) && y in s.nodes && x != y && !HasDealing(s.nodes[y].part, x, secret)
    ensures y in DkgBarrier.Next(z, s, step).nodes
    ensures HasDealing(DkgBarrier.Next(z, s, step).nodes[y].part, x, secret) ==> Hands(s, step, y, x, secret)
  {
    if step.x != y {
      OthersUntouched(z, s, step, y);
    } else if step.Start? {
      StartGains(z, s, y, step.pub, step.shares, x, secret);
    } else if step.Receive? {
      DeliveryGains(z, s, y, step.from, step.k, x, secret);
    } else {
      QuietGains(z, s, step, y, x, secret);
    }
  }

  lemma GotMore(z: Ceremony, s: System, steps: seq<Step>, y: Key, x: Key, secret: bool)
    requires steps != [] && Got(z, s, steps[..|steps| - 1], y, x, secret)
    ensures Got(z, s, steps, y, x, secret)
  {
    var init := steps[..|steps| - 1];
    var i :| 0 <= i < |init| && Hands(DkgBarrier.Run(z, s, init[..i]), init[i], y, x, secret);
    assert init[..i] == steps[..i] && init[i] == steps[i];
  }

  lemma {:induction false} HasMeansGot(z: Ceremony, s: System, steps: seq<Step>, y: Key, x: Key, secret: bool)
    requires CeremonyOk(z) && Initial(z, s) && y in z.participants && x != y
    ensures y in DkgBarrier.Run(z, s, steps).nodes
    ensures HasDealing(DkgBarrier.Run(z, s, steps).nodes[y].part, x, secret) ==> Got(z, s, steps, y, x, secret)
  {
    InitialInv(z, s);
    assert y in Elems(z.participants);
    if steps != [] {
      var init, last := steps[..|steps| - 1], steps[|steps| - 1];
      var before := DkgBarrier.Run(z, s, init);
      HasMeansGot(z, s, init, y, x, secret);
      DkgBarrier.RunKeeps(z, s, init);
      if HasDealing(before.nodes[y].part, x, secret) {
        GotMore(z, s, steps, y, x, secret);
        NextNodes(z, before, last);
      } else {
        ConfigOf(z, before, y);
        NextGains(z, before, last, y, x, secret);
        assert Hands(before, last, y, x, secret) ==> Got(z, s, steps, y, x, secret) by {
          assert steps[..|steps| - 1] == init;
        }
      }
    }
  }

  lemma NextNodes(z: Ceremony, s: System, step: Step)
    ensures s.nodes.Keys <= DkgBarrier.Next(z, s, step).nodes.Keys
  {
  }

  /** A private or public message that never arrives, for whatever reason, stops the
      ceremony for everyone: nobody finalizes. */
  lemma LostDealingStopsEveryone(z: Ceremony, s: System, steps: seq<Step>, x: Key, y: Key, secret: bool)
    requires CeremonyOk(z) && Initial(z, s) && x in z.participants && y in z.participants && x != y
    requires !Got(z, s, steps, y, x, secret)
    ensures forall w <- DkgBarrier.Run(z, s, steps).nodes :: DkgBarrier.Run(z, s, steps).nodes[w].phase != Finalized
  {
    var r := DkgBarrier.Run(z, s, steps);
    HasMeansGot(z, s, steps, y, x, secret);
    InitialInv(z, s);
    DkgBarrier.RunKeeps(z, s, steps);
    assert NodeOk(z, r.nodes, y);
    forall w <- r.nodes ensures r.nodes[w].phase != Finalized {
      if r.nodes[w].phase == Finalized {
        Barrier(z, s, steps, w, y, x);
      }
    }
  }

  // ----- agreement of the whole system -----

  type Check = SignedLog -> Option<(Key, DealerLog)>

  /** All participants open signed logs the same way. */
  ghost predicate ChecksWith(z: Ceremony, check: Check) {
    forall x <- z.participants :: z.config(x).check == check
  }

  /** `log` is the log that `d` itself signed and keeps. */
  ghost predicate OwnLog(nodes: map<Key, Node>, d: Key, log: SignedLog) {
    d in nodes && d in nodes[d].part.signed && nodes[d].part.signed[d] == log
  }

  ghost predicate Known(check: Check, nodes: map<Key, Node>, log: SignedLog) {
    check(log).Some? && check(log).value.0 in nodes ==> OwnLog(nodes, check(log).value.0, log)
  }

  ghost predicate KindKnown(check: Check, nodes: map<Key, Node>, kind: Kind) {
    forall log <- LogsIn(kind) :: Known(check, nodes, log)
  }

  /** A node keeps only logs their dealers signed, and none of its own before it seals. */
  ghost predicate NodeLogs(nodes: map<Key, Node>, x: Key)
    requires x in nodes
  {
    && (forall d <- nodes[x].part.signed :: OwnLog(nodes, d, nodes[x].part.signed[d]))
    && (nodes[x].phase == Idle || nodes[x].part.dealer.Some? ==> x !in nodes[x].part.signed)
  }

  ghost predicate LogInv(check: Check, s: System) {
    && (forall x <- s.nodes :: NodeLogs(s.nodes, x))
    && (forall a <- s.nodes, b <- s.nodes :: ChannelLogs(check, s.nodes, s.sent(a, b)))
  }

  ghost predicate ChannelLogs(check: Check, nodes: map<Key, Node>, sent: seq<Kind>) {
    forall kind <- sent :: KindKnown(check, nodes, kind)
  }

  /** What a step may do to the logs of node `x`: keep those there are, add those of other
      dealers as these keep them, send nothing unknown. */
  ghost predicate MayLog(check: Check, nodes: map<Key, Node>, x: Key, part: Participant, phase: Phase)
    requires x in nodes
  {
    && (forall d <- nodes[x].part.signed :: d in part.signed && part.signed[d] == nodes[x].part.signed[d])
    && (forall d <- part.signed :: d == x || OwnLog(nodes, d, part.signed[d]))
    && (forall o <- part.outgoing :: KindKnown(check, Moves(nodes, x, part, phase), o.kind))
    && (phase == Idle || part.dealer.Some? ==> x !in part.signed)
  }

  ghost function Moves(nodes: map<Key, Node>, x: Key, part: Participant, phase: Phase): (r: map<Key, Node>) {
    nodes[x := Node(part.(outgoing := []), phase)]
  }

  lemma KnownStays(check: Check, nodes: map<Key, Node>, x: Key, part: Participant, phase: Phase, log: SignedLog)
    requires x in nodes && MayLog(check, nodes, x, part, phase) && Known(check, nodes, log)
    ensures Known(check, Moves(nodes, x, part, phase), log)
  {
  }

  lemma ChannelStays(check: Check, nodes: map<Key, Node>, x: Key, part: Participant, phase: Phase, sent: seq<Kind>)
    requires x in nodes && MayLog(check, nodes, x, part, phase) && ChannelLogs(check, nodes, sent)
    ensures ChannelLogs(check, Moves(nodes, x, part, phase), sent)
  {
    forall kind <- sent, log <- LogsIn(kind) ensures Known(check, Moves(nodes, x, part, phase), log) {
      assert KindKnown(check, nodes, kind);
      KnownStays(check, nodes, x, part, phase, log);
    }
  }

  lemma NewOnChannel(check: Check, nodes: map<Key, Node>, x: Key, q: seq<Outgoing>, y: Key)
    requires forall o <- q :: KindKnown(check, nodes, o.kind)
    ensures ChannelLogs(check, nodes, Sends(x, q, y))
  {
    forall kind <- Sends(x, q, y) ensures KindKnown(check, nodes, kind) {
      SendsFrom(x, q, y, kind);
    }
  }

  lemma NodeStays(check: Check, nodes: map<Key, Node>, x: Key, part: Participant, phase: Phase, y: Key)
    requires x in nodes && y in nodes && NodeLogs(nodes, y) && MayLog(check, nodes, x, part, phase)
    ensures NodeLogs(Moves(nodes, x, part, phase), y)
  {
  }

  lemma MovedLogs(check: Check, s: System, x: Key, part: Participant, phase: Phase)
    requires x in s.nodes && LogInv(check, s) && MayLog(check, s.nodes, x, part, phase)
    ensures LogInv(check, Moved(s, x, part, phase))
  {
    var r := Moved(s, x, part, phase);
    assert r.nodes == Moves(s.nodes, x, part, phase);
    forall y <- r.nodes ensures NodeLogs(r.nodes, y) {
      NodeStays(check, s.nodes, x, part, phase, y);
    }
    forall a <- r.nodes, b <- r.nodes ensures ChannelLogs(check, r.nodes, r.sent(a, b)) {
      ChannelStays(check, s.nodes, x, part, phase, s.sent(a, b));
      NewOnChannel(check, r.nodes, x, part.outgoing, b);
    }
  }

  // ----- the steps -----

  /** A message that brings no logs and asks for none leaves them alone and sends none. */
  lemma QuietLogs(c: Config, s: Participant, from: Key, kind: Kind)
    requires !kind.SignedDealerLog? && !kind.AllLogs? && !kind.RequestLogs? && s.outgoing == []
    ensures var r := Handle(c, s, from, kind).0;
      r.signed == s.signed && (r.dealer.Some? ==> s.dealer.Some?) && forall o <- r.outgoing :: LogsIn(o.kind) == {}
  {
    match kind
    case DealerPublic(dealer, pub) => PublicOnly(c, s, from, dealer, pub);
    case DealerPrivate(dealer, share) => PrivateOnly(c, s, from, dealer, share);
    case _ =>
  }

  /** A message with logs adds only logs it brings, and only for dealers without one. */
  lemma LoudLogs(c: Config, s: Participant, from: Key, kind: Kind)
    requires ConfigOk(c) && LogsOk(c, s) && (kind.SignedDealerLog? || kind.AllLogs?)
    ensures var r := Handle(c, s, from, kind).0;
      && r.dealer == s.dealer && r.outgoing == s.outgoing
      && (forall d <- s.signed :: d in r.signed && r.signed[d] == s.signed[d])
      && (forall d <- r.signed :: d !in s.signed ==> IsLogOf(c, r.signed[d], d) && r.signed[d] in LogsIn(kind))
  {
    if kind.AllLogs? {
      BundleLogs(c, s, kind.logs);
    } else {
      OneLog(c, s, kind.log);
    }
  }

  lemma BundleLogs(c: Config, s: Participant, logs: seq<(Key, SignedLog)>)
    requires ConfigOk(c) && LogsOk(c, s)
    ensures var r := AddLogs(c, s, logs);
      && r.dealer == s.dealer && r.outgoing == s.outgoing
      && (forall d <- s.signed :: d in r.signed && r.signed[d] == s.signed[d])
      && (forall d <- r.signed :: d !in s.signed ==> IsLogOf(c, r.signed[d], d) && r.signed[d] in LogsIn(AllLogs(logs)))
  {
    AddLogsOnly(c, s, logs);
    AddLogsFills(c, s, logs);
    forall log | InBundle(logs, log) ensures log in LogsIn(AllLogs(logs)) {
      var e :| e in logs && e.1 == log;
    }
  }

  lemma OneLog(c: Config, s: Participant, log: SignedLog)
    requires LogsOk(c, s)
    ensures var r := HandleLog(c, s, log).0;
      && r.dealer == s.dealer && r.outgoing == s.outgoing
      && (forall d <- s.signed :: d in r.signed && r.signed[d] == s.signed[d])
      && (forall d <- r.signed :: d !in s.signed ==> IsLogOf(c, r.signed[d], d) && r.signed[d] == log)
  {
  }

  lemma BundleIs(signed: map<Key, SignedLog>, log: SignedLog)
    requires log in LogsIn(AllLogs(LogBundle(signed)))
    ensures exists d <- signed :: signed[d] == log
  {
    var e :| e in LogBundle(signed) && e.1 == log;
    var keys := SortedKeys(signed.Keys);
    var i :| 0 <= i < |keys| && LogBundle(signed)[i] == e;
    assert keys[i] in Elems(keys);
  }

  /** A bundle holds what the node keeps. */
  lemma BundleKnown(check: Check, nodes: map<Key, Node>, c: Config, x: Key)
    requires x in nodes && NodeLogs(nodes, x) && LogsOk(c, nodes[x].part) && c.check == check
    ensures KindKnown(check, nodes, AllLogs(LogBundle(nodes[x].part.signed)))
  {
    var signed := nodes[x].part.signed;
    forall log <- LogsIn(AllLogs(LogBundle(signed))) ensures Known(check, nodes, log) {
      BundleIs(signed, log);
      var d :| d in signed && signed[d] == log;
      assert OwnLog(nodes, d, log);
    }
  }

  lemma SameLogsMayMove(check: Check, nodes: map<Key, Node>, x: Key, part: Participant, phase: Phase)
    requires x in nodes && NodeLogs(nodes, x) && part.signed == nodes[x].part.signed
    requires phase == Idle || part.dealer.Some? ==> nodes[x].phase == Idle || nodes[x].part.dealer.Some?
    requires forall o <- part.outgoing :: KindKnown(check, nodes, o.kind)
    ensures MayLog(check, nodes, x, part, phase)
  {
    var r := Moves(nodes, x, part, phase);
    forall o <- part.outgoing, log <- LogsIn(o.kind) ensures Known(check, r, log) {
      assert Known(check, nodes, log);
    }
  }

  lemma LoudMove(check: Check, nodes: map<Key, Node>, c: Config, x: Key, s: Participant, from: Key, kind: Kind)
    requires x in nodes && ConfigOk(c) && c.check == check && NodeLogs(nodes, x)
    requires nodes.Keys == Elems(c.participants)
    requires LogsOk(c, s) && s.signed == nodes[x].part.signed && s.dealer == nodes[x].part.dealer && s.outgoing == []
    requires (kind.SignedDealerLog? || kind.AllLogs?) && KindKnown(check, nodes, kind)
    ensures MayLog(check, nodes, x, Handle(c, s, from, kind).0, nodes[x].phase)
  {
    LoudLogs(c, s, from, kind);
    var r := Handle(c, s, from, kind).0;
    forall d <- r.signed ensures OwnLog(nodes, d, r.signed[d]) {
      if d !in s.signed {
        assert d in Elems(c.participants);
        assert Known(check, nodes, r.signed[d]);
      }
    }
  }

  lemma AnswerMove(check: Check, nodes: map<Key, Node>, c: Config, x: Key, s: Participant, from: Key)
    requires x in nodes && c.check == check && NodeLogs(nodes, x) && LogsOk(c, nodes[x].part)
    requires s.signed == nodes[x].part.signed && s.dealer == nodes[x].part.dealer && s.outgoing == []
    ensures MayLog(check, nodes, x, Handle(c, s, from, Kind.RequestLogs).0, nodes[x].phase)
  {
    var r := Handle(c, s, from, Kind.RequestLogs).0;
    AnswerIs(c, s, from);
    BundleKnown(check, nodes, c, x);
    SameLogsMayMove(check, nodes, x, r, nodes[x].phase);
  }

  lemma AnswerIs(c: Config, s: Participant, from: Key)
    requires s.outgoing == []
    ensures var r := Handle(c, s, from, Kind.RequestLogs).0;
      r.signed == s.signed && r.dealer == s.dealer && forall o <- r.outgoing :: o.kind == AllLogs(LogBundle(s.signed))
  {
  }

  lemma HandleMove(check: Check, nodes: map<Key, Node>, c: Config, x: Key, s: Participant, from: Key, kind: Kind)
    requires x in nodes && ConfigOk(c) && c.check == check && NodeLogs(nodes, x)
    requires nodes.Keys == Elems(c.participants) && LogsOk(c, nodes[x].part)
    requires LogsOk(c, s) && s.signed == nodes[x].part.signed && s.dealer == nodes[x].part.dealer && s.outgoing == []
    requires KindKnown(check, nodes, kind)
    ensures MayLog(check, nodes, x, Handle(c, s, from, kind).0, nodes[x].phase)
  {
    var r := Handle(c, s, from, kind).0;
    if kind.SignedDealerLog? || kind.AllLogs? {
      LoudMove(check, nodes, c, x, s, from, kind);
    } else if kind.RequestLogs? {
      AnswerMove(check, nodes, c, x, s, from);
    } else {
      QuietLogs(c, s, from, kind);
      SameLogsMayMove(check, nodes, x, r, nodes[x].phase);
    }
  }

  lemma ReceivedLogs(z: Ceremony, check: Check, s: System, x: Key, from: Key, k: nat)
    requires x in s.nodes && from in s.nodes && k < |s.sent(from, x)| && LogInv(check, s)
    requires ConfigFor(z, x, z.config(x)) && z.config(x).check == check && s.nodes.Keys == Elems(z.participants)
    requires ParticipantOk(z.config(x), s.nodes[x].part) && s.nodes[x].part.outgoing == []
    ensures LogInv(check, Received(z, s, x, from, k))
  {
    var c, p, kind := z.config(x), s.nodes[x].part, s.sent(from, x)[k];
    assert NodeLogs(s.nodes, x);
    assert KindKnown(check, s.nodes, kind) by { assert ChannelLogs(check, s.nodes, s.sent(from, x)); }
    var part := HandleBytes(c, p, from, z.encode(kind)).0;
    if z.encode(kind) in p.seen {
      SameLogsMayMove(check, s.nodes, x, part, s.nodes[x].phase);
    } else {
      var marked := p.(seen := p.seen + {z.encode(kind)});
      assert part == Handle(c, marked, from, kind).0;
      HandleMove(check, s.nodes, c, x, marked, from, kind);
    }
    MovedLogs(check, s, x, part, s.nodes[x].phase);
    SameParts(check, Moved(s, x, part, s.nodes[x].phase), Received(z, s, x, from, k));
  }

  lemma SameParts(check: Check, s: System, r: System)
    requires LogInv(check, s) && r.nodes == s.nodes && r.sent == s.sent
    ensures LogInv(check, r)
  {
  }

  lemma {:induction false} StartSendsNoLogs(c: Config, shares: seq<(Key, PrivMsg)>)
    ensures forall o <- ShareMessages(c, shares) :: LogsIn(o.kind) == {}
  {
    ShareMessagesOk(c, shares);
  }

  lemma StartMoves(check: Check, nodes: map<Key, Node>, c: Config, x: Key, pub: PubMsg, shares: seq<(Key, PrivMsg)>)
    requires x in nodes && NodeLogs(nodes, x) && nodes[x].part.outgoing == [] && nodes[x].phase == Idle
    ensures MayLog(check, nodes, x, StartedDealer(c, nodes[x].part, pub, shares), Collecting)
  {
    StartSendsNoLogs(c, shares);
    var part := StartedDealer(c, nodes[x].part, pub, shares);
    assert part.signed == nodes[x].part.signed;
    forall o <- part.outgoing ensures KindKnown(check, nodes, o.kind) {
      StartQueues(c, nodes[x].part, pub, shares, o);
      assert LogsIn(o.kind) == {};
    }
    SameLogsMayMove(check, nodes, x, part, Collecting);
  }

  lemma StartLogs(z: Ceremony, check: Check, s: System, x: Key, pub: PubMsg, shares: seq<(Key, PrivMsg)>)
    requires LogInv(check, s) && x in s.nodes && s.nodes[x].part.outgoing == []
    ensures LogInv(check, AfterStart(z, s, x, pub, shares))
  {
    if s.nodes[x].phase == Idle {
      assert NodeLogs(s.nodes, x);
      StartMoves(check, s.nodes, z.config(x), x, pub, shares);
      MovedLogs(check, s, x, StartedDealer(z.config(x), s.nodes[x].part, pub, shares), Collecting);
    }
  }

  lemma SealMove(check: Check, nodes: map<Key, Node>, c: Config, x: Key)
    requires x in nodes && ConfigOk(c) && c.check == check && c.me == x && NodeLogs(nodes, x)
    requires nodes[x].part.outgoing == [] && nodes[x].phase != Idle
    ensures var (part, error) := FinalizedDealer(c, nodes[x].part);
      MayLog(check, nodes, x, part, PhaseAfter(error))
  {
  }

  lemma FinalizeLogs(z: Ceremony, check: Check, s: System, x: Key)
    requires LogInv(check, s) && x in s.nodes && s.nodes[x].part.outgoing == []
    requires ConfigFor(z, x, z.config(x)) && z.config(x).check == check
    ensures LogInv(check, AfterFinalize(z, s, x))
  {
    var c, n := z.config(x), s.nodes[x];
    if n.phase == Readying && AllReady(c, n.part) {
      assert NodeLogs(s.nodes, x);
      SealMove(check, s.nodes, c, x);
      MovedLogs(check, s, x, FinalizedDealer(c, n.part).0, PhaseAfter(FinalizedDealer(c, n.part).1));
    }
  }

  /** A step that moves no logs. */
  lemma QuietMoved(check: Check, s: System, x: Key, part: Participant, phase: Phase)
    requires LogInv(check, s) && x in s.nodes && part.signed == s.nodes[x].part.signed
    requires phase == Idle || part.dealer.Some? ==> s.nodes[x].phase == Idle || s.nodes[x].part.dealer.Some?
    requires forall o <- part.outgoing :: LogsIn(o.kind) == {}
    ensures LogInv(check, Moved(s, x, part, phase))
  {
    assert NodeLogs(s.nodes, x);
    SameLogsMayMove(check, s.nodes, x, part, phase);
    MovedLogs(check, s, x, part, phase);
  }

  lemma QuietStepLogs(z: Ceremony, check: Check, s: System, step: Step)
    requires LogInv(check, s) && step.x in s.nodes && s.nodes[step.x].part.outgoing == []
    requires step.SignalReady? || step.RequestLogs? || step.Abort?
    ensures LogInv(check, DkgBarrier.Next(z, s, step))
  {
    var x, n := step.x, s.nodes[step.x];
    if step.Abort? {
      QuietMoved(check, s, x, n.part, Aborted);
    } else if step.SignalReady? {
      if n.phase == Collecting && CollectedAll(z.config(x), n.part) {
        QuietMoved(check, s, x, BroadcastReady(z.config(x), n.part), Readying);
      }
    } else if n.phase == Finalized && z.participants != [] && x != z.participants[0] {
      QuietMoved(check, s, x, Asking(z, n.part), Finalized);
    }
  }

  lemma DeliveryLogs(z: Ceremony, check: Check, s: System, x: Key, from: Key, k: nat)
    requires x in s.nodes && LogInv(check, s)
    requires ConfigFor(z, x, z.config(x)) && z.config(x).check == check && s.nodes.Keys == Elems(z.participants)
    requires ParticipantOk(z.config(x), s.nodes[x].part) && s.nodes[x].part.outgoing == []
    ensures LogInv(check, AfterReceive(z, s, x, from, k))
  {
    var r := AfterReceive(z, s, x, from, k);
    if Listening(s.nodes[x]) && from in s.nodes && k < |s.sent(from, x)| {
      assert r == Received(z, s, x, from, k);
      ReceivedLogs(z, check, s, x, from, k);
    } else {
      assert r == s;
    }
  }

  lemma AtNode(z: Ceremony, check: Check, s: System, x: Key)
    requires CeremonyOk(z) && ChecksWith(z, check) && SysInv(z, s) && x in s.nodes
    ensures ConfigFor(z, x, z.config(x)) && z.config(x).check == check
    ensures s.nodes[x].part.outgoing == [] && ParticipantOk(z.config(x), s.nodes[x].part)
  {
    ConfigOf(z, s, x);
    assert x in Elems(z.participants);
    assert NodeOk(z, s.nodes, x);
  }

  lemma NextLogs(z: Ceremony, check: Check, s: System, step: Step)
    requires CeremonyOk(z) && ChecksWith(z, check) && SysInv(z, s) && LogInv(check, s)
    ensures LogInv(check, DkgBarrier.Next(z, s, step))
  {
    if step.x in s.nodes {
      AtNode(z, check, s, step.x);
      match step
      case Start(x, pub, shares) => StartLogs(z, check, s, x, pub, shares);
      case Receive(x, from, k) => DeliveryLogs(z, check, s, x, from, k);
      case FinalizeDealer(x) => FinalizeLogs(z, check, s, x);
      case _ => QuietStepLogs(z, check, s, step);
    }
  }

  lemma {:induction false} RunLogs(z: Ceremony, check: Check, s: System, steps: seq<Step>)
    requires CeremonyOk(z) && ChecksWith(z, check) && Initial(z, s)
    ensures SysInv(z, DkgBarrier.Run(z, s, steps)) && LogInv(check, DkgBarrier.Run(z, s, steps))
  {
    InitialInv(z, s);
    DkgBarrier.RunKeeps(z, s, steps);
    if steps != [] {
      var init := steps[..|steps| - 1];
      RunLogs(z, check, s, init);
      NextLogs(z, check, DkgBarrier.Run(z, s, init), steps[|steps| - 1]);
    }
  }

  lemma NodesAgree(check: Check, nodes: map<Key, Node>, c1: Config, c2: Config, x: Key, y: Key)
    requires x in nodes && y in nodes && NodeLogs(nodes, x) && NodeLogs(nodes, y)
    requires ConfigOk(c1) && ConfigOk(c2) && c1.check == check && c2.check == check && c1.participants == c2.participants
    requires LogsOk(c1, nodes[x].part) && LogsOk(c2, nodes[y].part)
    requires CanFinalize(c1, nodes[x].part) && CanFinalize(c2, nodes[y].part)
    ensures nodes[x].part.logs == nodes[y].part.logs && nodes[x].part.logs.Keys == Elems(c1.participants)
  {
    var p, q := nodes[x].part, nodes[y].part;
    FinalizableHasAll(c1, p);
    FinalizableHasAll(c2, q);
    forall d <- p.logs ensures p.logs[d] == q.logs[d] {
      assert OwnLog(nodes, d, p.signed[d]) && OwnLog(nodes, d, q.signed[d]);
      assert check(p.signed[d]) == Some((d, p.logs[d])) && check(q.signed[d]) == Some((d, q.logs[d]));
    }
  }

  /** In every run, whatever the network does, any two participants that may finalize hold
      the same logs, one for each participant, and each is the log its dealer signed. */
  lemma SystemAgreement(z: Ceremony, check: Check, s: System, steps: seq<Step>, x: Key, y: Key)
    requires CeremonyOk(z) && ChecksWith(z, check) && Initial(z, s) && x in z.participants && y in z.participants
    ensures var r := DkgBarrier.Run(z, s, steps);
      && x in r.nodes && y in r.nodes
      && (forall d <- r.nodes[x].part.signed :: OwnLog(r.nodes, d, r.nodes[x].part.signed[d]))
      && (CanFinalize(z.config(x), r.nodes[x].part) && CanFinalize(z.config(y), r.nodes[y].part)
          ==> r.nodes[x].part.logs == r.nodes[y].part.logs && r.nodes[x].part.logs.Keys == Elems(z.participants))
  {
    RunLogs(z, check, s, steps);
    StateAgrees(z, check, DkgBarrier.Run(z, s, steps), x, y);
  }

  lemma StateAgrees(z: Ceremony, check: Check, s: System, x: Key, y: Key)
    requires CeremonyOk(z) && ChecksWith(z, check) && SysInv(z, s) && LogInv(check, s)
    requires x in z.participants && y in z.participants
    ensures x in s.nodes && y in s.nodes
    ensures forall d <- s.nodes[x].part.signed :: OwnLog(s.nodes, d, s.nodes[x].part.signed[d])
    ensures CanFinalize(z.config(x), s.nodes[x].part) && CanFinalize(z.config(y), s.nodes[y].part)
      ==> s.nodes[x].part.logs == s.nodes[y].part.logs && s.nodes[x].part.logs.Keys == Elems(z.participants)
  {
    assert x in Elems(z.participants) && y in Elems(z.participants);
    AtNode(z, check, s, x);
    AtNode(z, check, s, y);
    assert NodeLogs(s.nodes, x) && NodeLogs(s.nodes, y);
    if CanFinalize(z.config(x), s.nodes[x].part) && CanFinalize(z.config(y), s.nodes[y].part) {
      NodesAgree(check, s.nodes, z.config(x), z.config(y), x, y);
    }
  }
}
