/** How a ceremony comes to its end: what is enough for a participant to finalize. */
module DkgCompletion {
  import opened Prelude
  import opened Dkg
  import opened DkgBarrier
  import opened DkgAgreement
  import DkgConfluence
  import DkgDelivery
  import DkgSystem

  // ----- received logs are kept -----

  predicate LogKept(c: Config, p: Participant, log: SignedLog) {
    c.check(log).Some? && c.check(log).value.0 in c.participants ==> c.check(log).value.0 in p.signed
  }

  /** Every signed log a participant remembers having seen left its dealer with a log. */
  ghost predicate SeenLogsKept(z: Ceremony, c: Config, p: Participant) {
    forall kind: Kind {:trigger z.encode(kind)} ::
      kind.SignedDealerLog? && z.encode(kind) in p.seen ==> LogKept(c, p, kind.log)
  }

  /** The dealer lives until it is finalized, and then our own log is there. */
  ghost predicate DealerPhase(n: Node, y: Key) {
    && (n.phase == Collecting || n.phase == Readying ==> n.part.dealer.Some?)
    && (n.phase == Finalized ==> y in n.part.signed)
  }

  ghost predicate Advancing(z: Ceremony, n: Node, y: Key) {
    SeenLogsKept(z, z.config(y), n.part) && DealerPhase(n, y)
  }

  lemma HandledLogs(c: Config, s: Participant, from: Key, kind: Kind)
    requires ConfigOk(c) && LogsOk(c, s) && from in c.participants
    ensures var r := Handle(c, s, from, kind).0;
      s.signed.Keys <= r.signed.Keys && (kind.SignedDealerLog? ==> LogKept(c, r, kind.log))
  {
    if kind.AllLogs? {
      AddLogsFills(c, s, kind.logs);
    } else if kind.SignedDealerLog? {
      FullMeansAll(c, s);
    } else {
      OtherKindsKeepLogs(c, s, from, kind);
    }
  }

  /** What a delivery keeps and adds. */
  ghost predicate Delivered(z: Ceremony, c: Config, s: Participant, r: Participant, kind: Kind) {
    && s.signed.Keys <= r.signed.Keys
    && SeenLogsKept(z, c, r)
    && (kind.SignedDealerLog? ==> LogKept(c, r, kind.log))
    && r.dealer.Some? == s.dealer.Some?
  }

  lemma BytesDelivered(z: Ceremony, x: Key, s: Participant, from: Key, kind: Kind)
    requires ConfigFor(z, x, z.config(x)) && ParticipantOk(z.config(x), s) && from in z.participants
    requires SeenLogsKept(z, z.config(x), s)
    ensures Delivered(z, z.config(x), s, HandleBytes(z.config(x), s, from, z.encode(kind)).0, kind)
  {
    var c, b := z.config(x), z.encode(kind);
    var r := HandleBytes(c, s, from, b).0;
    DkgDelivery.DeliveredDealer(z, x, s, from, kind);
    if b !in s.seen {
      assert c.decode(b) == Some(Message(Some(z.session), kind));
      DkgConfluence.AdmittedBytes(c, s, from, b);
      HandledLogs(c, s.(seen := s.seen + {b}), from, kind);
      DkgConfluence.ReceiveSeen(c, s, from, b);
      SeenStaysKept(z, c, s, r, kind);
    }
  }

  lemma SeenStaysKept(z: Ceremony, c: Config, s: Participant, r: Participant, kind: Kind)
    requires SeenLogsKept(z, c, s) && s.signed.Keys <= r.signed.Keys && r.seen == s.seen + {z.encode(kind)}
    requires forall k: Kind {:trigger z.encode(k)} :: c.decode(z.encode(k)) == Some(Message(Some(z.session), k))
    requires kind.SignedDealerLog? ==> LogKept(c, r, kind.log)
    ensures SeenLogsKept(z, c, r)
  {
    forall k: Kind | k.SignedDealerLog? && z.encode(k) in r.seen ensures LogKept(c, r, k.log) {
      if z.encode(k) in s.seen {
        assert LogKept(c, s, k.log);
      } else {
        assert c.decode(z.encode(k)) == c.decode(z.encode(kind));
      }
    }
  }

  // ----- steps -----

  /** The step hands `y`, which is listening, a log that `d` signed. */
  ghost predicate HandsLog(z: Ceremony, s: System, step: Step, y: Key, d: Key) {
    && step.Receive? && step.x == y && y in s.nodes && Listening(s.nodes[y]) && step.from in s.nodes
    && step.k < |s.sent(step.from, y)|
    && s.sent(step.from, y)[step.k].SignedDealerLog? && IsLogOf(z.config(y), s.sent(step.from, y)[step.k].log, d)
  }

  ghost predicate GotLog(z: Ceremony, s: System, steps: seq<Step>, y: Key, d: Key) {
    exists i :: 0 <= i < |steps| && HandsLog(z, DkgBarrier.Run(z, s, steps[..i]), steps[i], y, d)
  }

  /** How node `y` may change: it keeps its logs and goes on advancing. */
  ghost predicate Advances(z: Ceremony, n: Node, m: Node, y: Key) {
    n.part.signed.Keys <= m.part.signed.Keys && Advancing(z, m, y)
  }

  lemma DeliveryAdvances(z: Ceremony, s: System, y: Key, from: Key, k: nat)
    requires y in s.nodes && ConfigFor(z, y, z.config(y)) && s.nodes.Keys == Elems(z.participants)
    requires ParticipantOk(z.config(y), s.nodes[y].part) && Advancing(z, s.nodes[y], y)
    ensures y in AfterReceive(z, s, y, from, k).nodes
    ensures Advances(z, s.nodes[y], AfterReceive(z, s, y, from, k).nodes[y], y)
    ensures forall d: Key :: HandsLog(z, s, Step.Receive(y, from, k), y, d) ==>
      d in AfterReceive(z, s, y, from, k).nodes[y].part.signed
  {
    var r := AfterReceive(z, s, y, from, k);
    if Listening(s.nodes[y]) && from in s.nodes && k < |s.sent(from, y)| {
      assert r == Received(z, s, y, from, k);
      assert from in Elems(z.participants);
      BytesDelivered(z, y, s.nodes[y].part, from, s.sent(from, y)[k]);
    } else {
      assert r == s;
    }
  }

  lemma StartAdvances(z: Ceremony, s: System, y: Key, pub: PubMsg, shares: seq<(Key, PrivMsg)>)
    requires y in s.nodes && Advancing(z, s.nodes[y], y)
    ensures Advances(z, s.nodes[y], AfterStart(z, s, y, pub, shares).nodes[y], y)
  {
    var p := s.nodes[y].part;
    DkgDelivery.StartedOnly(z.config(y), p, pub, shares);
    assert StartedDealer(z.config(y), p, pub, shares).signed == p.signed;
  }

  lemma FinalizeAdvances(z: Ceremony, s: System, y: Key)
    requires y in s.nodes && ConfigFor(z, y, z.config(y)) && Advancing(z, s.nodes[y], y)
    ensures Advances(z, s.nodes[y], AfterFinalize(z, s, y).nodes[y], y)
  {
  }

  lemma QuietAdvances(z: Ceremony, s: System, step: Step, y: Key)
    requires y in s.nodes && step.x == y && Advancing(z, s.nodes[y], y)
    requires step.SignalReady? || step.RequestLogs? || step.Abort?
    ensures y in DkgBarrier.Next(z, s, step).nodes && Advances(z, s.nodes[y], DkgBarrier.Next(z, s, step).nodes[y], y)
  {
  }

  lemma NextAdvances(z: Ceremony, s: System, step: Step, y: Key, d: Key)
    requires y in s.nodes && ConfigFor(z, y, z.config(y)) && s.nodes.Keys == Elems(z.participants)
    requires ParticipantOk(z.config(y), s.nodes[y].part) && Advancing(z, s.nodes[y], y)
    ensures y in DkgBarrier.Next(z, s, step).nodes && Advances(z, s.nodes[y], DkgBarrier.Next(z, s, step).nodes[y], y)
    ensures HandsLog(z, s, step, y, d) ==> d in DkgBarrier.Next(z, s, step).nodes[y].part.signed
  {
    if step.x != y {
      DkgSystem.OthersUntouched(z, s, step, y);
    } else if step.Receive? {
      DeliveryAdvances(z, s, y, step.from, step.k);
    } else if step.Start? {
      StartAdvances(z, s, y, step.pub, step.shares);
    } else if step.FinalizeDealer? {
      FinalizeAdvances(z, s, y);
    } else {
      QuietAdvances(z, s, step, y);
    }
  }

  lemma GotLogSplits(z: Ceremony, s: System, steps: seq<Step>, y: Key, d: Key)
    requires steps != [] && GotLog(z, s, steps, y, d)
    ensures var init := steps[..|steps| - 1];
      GotLog(z, s, init, y, d) || HandsLog(z, DkgBarrier.Run(z, s, init), steps[|steps| - 1], y, d)
  {
    var init := steps[..|steps| - 1];
    var i :| 0 <= i < |steps| && HandsLog(z, DkgBarrier.Run(z, s, steps[..i]), steps[i], y, d);
    if i < |init| {
      assert init[..i] == steps[..i] && init[i] == steps[i];
    }
  }

  lemma {:induction false} RunAdvances(z: Ceremony, s: System, steps: seq<Step>, y: Key, d: Key)
    requires CeremonyOk(z) && Initial(z, s) && y in z.participants
    ensures SysInv(z, DkgBarrier.Run(z, s, steps)) && y in DkgBarrier.Run(z, s, steps).nodes
    ensures Advancing(z, DkgBarrier.Run(z, s, steps).nodes[y], y)
    ensures GotLog(z, s, steps, y, d) ==> d in DkgBarrier.Run(z, s, steps).nodes[y].part.signed
  {
    InitialInv(z, s);
    DkgBarrier.RunKeeps(z, s, steps);
    assert y in Elems(z.participants);
    if steps != [] {
      var init, last := steps[..|steps| - 1], steps[|steps| - 1];
      var before := DkgBarrier.Run(z, s, init);
      RunAdvances(z, s, init, y, d);
      AtNode(z, before, y);
      NextAdvances(z, before, last, y, d);
      if GotLog(z, s, steps, y, d) {
        GotLogSplits(z, s, steps, y, d);
      }
    }
  }

  lemma AtNode(z: Ceremony, s: System, y: Key)
    requires CeremonyOk(z) && SysInv(z, s) && y in s.nodes
    ensures ConfigFor(z, y, z.config(y)) && ParticipantOk(z.config(y), s.nodes[y].part)
  {
    ConfigOf(z, s, y);
    assert NodeOk(z, s.nodes, y);
  }

  /** On any network, a participant that has finalized its own dealer and has received a
      log of every other dealer, from whomever, may finalize the ceremony. */
  lemma ReceivedLogsFinalize(z: Ceremony, s: System, steps: seq<Step>, y: Key)
    requires CeremonyOk(z) && Initial(z, s) && y in z.participants
    requires forall d <- z.participants :: d != y ==> GotLog(z, s, steps, y, d)
    ensures var r := DkgBarrier.Run(z, s, steps);
      y in r.nodes && (r.nodes[y].phase == Finalized ==> CanFinalize(z.config(y), r.nodes[y].part))
  {
    HasLog(z, s, steps, y, y);
    forall d <- z.participants ensures HasLogIn(DkgBarrier.Run(z, s, steps), y, d) {
      HasLog(z, s, steps, y, d);
    }
    AtNode(z, DkgBarrier.Run(z, s, steps), y);
    AllLogsFinalize(z, DkgBarrier.Run(z, s, steps), y);
  }

  /** If `y` has finalized its dealer, it has a log of `d`. */
  ghost predicate HasLogIn(s: System, y: Key, d: Key) {
    y in s.nodes && (s.nodes[y].phase == Finalized ==> d in s.nodes[y].part.signed)
  }

  lemma HasLog(z: Ceremony, s: System, steps: seq<Step>, y: Key, d: Key)
    requires CeremonyOk(z) && Initial(z, s) && y in z.participants && (d == y || GotLog(z, s, steps, y, d))
    ensures SysInv(z, DkgBarrier.Run(z, s, steps)) && HasLogIn(DkgBarrier.Run(z, s, steps), y, d)
  {
    RunAdvances(z, s, steps, y, d);
  }

  lemma AllLogsFinalize(z: Ceremony, s: System, y: Key)
    requires y in s.nodes && ConfigOk(z.config(y)) && z.config(y).participants == z.participants
    requires LogsOk(z.config(y), s.nodes[y].part) && forall d <- z.participants :: HasLogIn(s, y, d)
    ensures s.nodes[y].phase == Finalized ==> CanFinalize(z.config(y), s.nodes[y].part)
  {
    if s.nodes[y].phase == Finalized {
      AllSignedFinalize(z.config(y), s.nodes[y].part);
    }
  }

  lemma AllSignedFinalize(c: Config, p: Participant)
    requires ConfigOk(c) && LogsOk(c, p) && forall d <- c.participants :: d in p.signed
    ensures CanFinalize(c, p)
  {
    assert p.logs.Keys == Elems(c.participants);
    FinalizableHasAll(c, p);
  }

  // ----- a run that ends -----

  lemma LoneStart(c: Config, x: Key, pub: PubMsg, share: PrivMsg)
    requires c.me == x && c.verify(x, pub, share).Some?
    ensures var r := StartedDealer(c, FRESH, pub, [(x, share)]);
      r.pubs.Keys == {x} && r.privs.Keys == {x} && r.acksSent == {x} && r.dealer == Some(map[]) && r.logs == map[] && !r.sentReady
  {
    assert [(x, share)][..0] == [];
    assert OwnShares(c, map[], [(x, share)]) == map[x := share];
  }

  /** A participant alone, whose messages verify and whose log opens, starts, signals,
      finalizes its dealer and may then finalize. */
  lemma LoneParticipantFinalizes(z: Ceremony, s: System, x: Key, pub: PubMsg, share: PrivMsg)
    requires CeremonyOk(z) && Initial(z, s) && z.participants == [x]
    requires z.config(x).verify(x, pub, share).Some? && z.config(x).check(z.config(x).seal(map[])).Some?
    ensures var r := DkgBarrier.Run(z, s, [Step.Start(x, pub, [(x, share)]), Step.SignalReady(x), Step.FinalizeDealer(x)]);
      x in r.nodes && r.nodes[x].phase == Finalized && CanFinalize(z.config(x), r.nodes[x].part)
  {
    var c := z.config(x);
    assert x in Elems(z.participants) && ConfigFor(z, x, c);
    LoneStart(c, x, pub, share);
    var s1 := AfterStart(z, s, x, pub, [(x, share)]);
    assert s1.nodes[x] == Node(StartedDealer(c, FRESH, pub, [(x, share)]).(outgoing := []), Collecting);
    LoneEnd(z, s1, x);
    ThreeSteps(z, s, Step.Start(x, pub, [(x, share)]), Step.SignalReady(x), Step.FinalizeDealer(x));
  }

  lemma ThreeSteps(z: Ceremony, s: System, a: Step, b: Step, c: Step)
    ensures DkgBarrier.Run(z, s, [a, b, c]) == DkgBarrier.Next(z, DkgBarrier.Next(z, DkgBarrier.Next(z, s, a), b), c)
  {
    assert [a, b, c][..2] == [a, b] && [a, b][..1] == [a] && [a][..0] == [];
    assert DkgBarrier.Run(z, s, [a]) == DkgBarrier.Next(z, s, a);
    assert DkgBarrier.Run(z, s, [a, b]) == DkgBarrier.Next(z, DkgBarrier.Next(z, s, a), b);
  }

  lemma LoneEnd(z: Ceremony, s: System, x: Key)
    requires x in s.nodes && ConfigOk(z.config(x)) && z.config(x).participants == [x] && s.nodes[x].phase == Collecting
    requires z.config(x).check(z.config(x).seal(map[])).Some?
    requires var p := s.nodes[x].part;
      p.pubs.Keys == {x} && p.privs.Keys == {x} && p.acksSent == {x} && p.dealer == Some(map[]) && p.logs == map[] && !p.sentReady
    ensures var r := AfterFinalize(z, AfterReady(z, s, x), x);
      x in r.nodes && r.nodes[x].phase == Finalized && CanFinalize(z.config(x), r.nodes[x].part)
  {
    var p := s.nodes[x].part;
    assert p.pubs.Keys * p.privs.Keys == {x};
    var t := AfterReady(z, s, x);
    assert t.nodes[x].phase == Readying && {x} <= t.nodes[x].part.ready;
    SubsetSize({x}, t.nodes[x].part.ready);
    var r := AfterFinalize(z, t, x);
    assert r.nodes[x].part.logs.Keys == {x};
  }
}
