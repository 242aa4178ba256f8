/** The ready barrier over reliable channels that keep the order: a dealer that finalizes
    has processed the acknowledgement of every other player. */
module DkgDelivery {
  import opened Prelude
  import opened Dkg
  import opened DkgBarrier
  import DkgAgreement
  import DkgConfluence

  /** What `b` has received from `a`. */
  ghost function Taken(s: System, a: Key, b: Key): (r: seq<Kind>) {
    if s.got(a, b) <= |s.sent(a, b)| then s.sent(a, b)[..s.got(a, b)] else s.sent(a, b)
  }

  /** An acknowledgement that reached a live dealer and that it accepts is recorded. */
  ghost predicate AckTaken(c: Config, p: Participant, y: Key, kind: Kind) {
    kind.PlayerAck? && p.dealer.Some? && c.accepts(y, kind.ack) ==> y in p.dealer.value
  }

  ghost predicate TakenAs(z: Ceremony, s: System, x: Key, b: Bytes, a: Key, kind: Kind) {
    a in s.nodes && kind in Taken(s, a, x) && z.encode(kind) == b
  }

  /** Everything seen was received on some channel. */
  ghost predicate SeenTaken(z: Ceremony, s: System, x: Key)
    requires x in s.nodes
  {
    forall b <- s.nodes[x].part.seen :: exists a, kind :: TakenAs(z, s, x, b, a, kind)
  }

  /** Every ready player other than us has told us so. */
  ghost predicate ReadyTaken(s: System, x: Key)
    requires x in s.nodes
  {
    forall y <- s.nodes[x].part.ready :: y != x ==> y in s.nodes && Ready(y) in Taken(s, y, x)
  }

  ghost predicate AcksTaken(z: Ceremony, s: System, x: Key)
    requires x in s.nodes
  {
    forall y <- s.nodes, kind <- Taken(s, y, x) :: AckTaken(z.config(x), s.nodes[x].part, y, kind)
  }

  ghost predicate NothingTaken(s: System, x: Key) {
    forall y <- s.nodes :: Taken(s, y, x) == []
  }

  /** A dealer lives from its start to its finalization; before, nothing is received. */
  ghost predicate DealerOk(s: System, x: Key)
    requires x in s.nodes
  {
    && (s.nodes[x].phase == Collecting || s.nodes[x].phase == Readying ==> s.nodes[x].part.dealer.Some?)
    && (s.nodes[x].phase == Idle ==> NothingTaken(s, x))
  }

  ghost predicate NodeOrder(z: Ceremony, s: System, x: Key)
    requires x in s.nodes
  {
    SeenTaken(z, s, x) && ReadyTaken(s, x) && AcksTaken(z, s, x) && DealerOk(s, x)
  }

  ghost predicate GotOk(s: System) {
    forall a <- s.nodes, b <- s.nodes :: s.got(a, b) <= |s.sent(a, b)|
  }

  ghost predicate OrderOk(z: Ceremony, s: System) {
    GotOk(s) && forall x <- s.nodes :: NodeOrder(z, s, x)
  }

  /** Every delivery of the run takes the next message of its channel. */
  ghost predicate InOrder(z: Ceremony, s: System, steps: seq<Step>) {
    steps == [] ||
    var init, last := steps[..|steps| - 1], steps[|steps| - 1];
    InOrder(z, s, init) && (last.Receive? ==> last.k == Run(z, s, init).got(last.from, last.x))
  }

  // ----- steps that receive nothing -----

  /** The same nodes have received the same messages. */
  ghost predicate SameTaken(s: System, r: System) {
    r.nodes.Keys == s.nodes.Keys && forall a <- s.nodes, b <- s.nodes :: Taken(r, a, b) == Taken(s, a, b)
  }

  lemma MovedTaken(s: System, x: Key, part: Participant, phase: Phase)
    requires x in s.nodes && GotOk(s)
    ensures GotOk(Moved(s, x, part, phase)) && SameTaken(s, Moved(s, x, part, phase))
  {
    var r := Moved(s, x, part, phase);
    forall a <- s.nodes, b <- s.nodes ensures r.got(a, b) <= |r.sent(a, b)| && Taken(r, a, b) == Taken(s, a, b) {
      assert s.got(a, b) <= |s.sent(a, b)|;
    }
  }

  lemma SeenStays(z: Ceremony, s: System, r: System, x: Key)
    requires x in s.nodes && SameTaken(s, r) && SeenTaken(z, s, x) && r.nodes[x].part.seen <= s.nodes[x].part.seen
    ensures SeenTaken(z, r, x)
  {
    forall b <- r.nodes[x].part.seen ensures exists a, kind :: TakenAs(z, r, x, b, a, kind) {
      var a, kind :| TakenAs(z, s, x, b, a, kind);
      assert TakenAs(z, r, x, b, a, kind);
    }
  }

  /** What a node may do without receiving: it sees nothing new, becomes ready only by
      itself, and loses no acknowledgement its dealer has, unless it received nothing or
      drops the dealer. */
  ghost predicate Keeps(s: System, x: Key, part: Participant, phase: Phase)
    requires x in s.nodes
  {
    var p := s.nodes[x].part;
    && part.seen <= p.seen
    && part.ready <= p.ready + {x}
    && (part.dealer == p.dealer || part.dealer.None? || NothingTaken(s, x))
    && phase != Idle
    && (phase == Collecting || phase == Readying ==> part.dealer.Some?)
  }

  lemma MovedOrder(z: Ceremony, s: System, x: Key, part: Participant, phase: Phase)
    requires OrderOk(z, s) && x in s.nodes && Keeps(s, x, part, phase)
    ensures OrderOk(z, Moved(s, x, part, phase))
  {
    var r := Moved(s, x, part, phase);
    MovedTaken(s, x, part, phase);
    forall y <- r.nodes ensures NodeOrder(z, r, y) {
      assert NodeOrder(z, s, y);
      MovedNodeOrder(z, s, r, x, y, part, phase);
    }
  }

  lemma MovedNodeOrder(z: Ceremony, s: System, r: System, x: Key, y: Key, part: Participant, phase: Phase)
    requires x in s.nodes && y in s.nodes && SameTaken(s, r) && NodeOrder(z, s, y) && Keeps(s, x, part, phase)
    requires r.nodes == s.nodes[x := Node(part.(outgoing := []), phase)]
    ensures NodeOrder(z, r, y)
  {
    SeenStays(z, s, r, y);
    if y == x {
      forall a <- r.nodes, kind <- Taken(r, a, x) ensures AckTaken(z.config(x), r.nodes[x].part, a, kind) {
        assert AckTaken(z.config(x), s.nodes[x].part, a, kind);
      }
    } else {
      assert r.nodes[y] == s.nodes[y];
    }
  }

  // ----- deliveries -----

  /** The handler keeps the acknowledgements the dealer has. */
  lemma DealerGrows(c: Config, s: Participant, from: Key, kind: Kind)
    ensures var r := Handle(c, s, from, kind).0;
      r.dealer.Some? == s.dealer.Some? && (s.dealer.Some? ==> s.dealer.value.Keys <= r.dealer.value.Keys)
  {
    match kind
    case DealerPublic(dealer, pub) => DkgAgreement.PublicOnly(c, s, from, dealer, pub);
    case DealerPrivate(dealer, share) => DkgAgreement.PrivateOnly(c, s, from, dealer, share);
    case AllLogs(logs) => DkgAgreement.AddLogsOnly(c, s, logs);
    case _ =>
  }

  /** ... and takes a new one that it accepts. */
  lemma AckIsTaken(c: Config, s: Participant, from: Key, kind: Kind)
    requires from in c.participants && (kind.PlayerAck? ==> kind.player == from && kind.dealer == c.me)
    ensures AckTaken(c, Handle(c, s, from, kind).0, from, kind)
  {
    if kind.PlayerAck? {
      assert Handle(c, s, from, kind) == HandleAck(c, s, from, from, c.me, kind.ack);
    }
  }

  /** The state of a receiver after one delivery, in terms of its dealer. */
  lemma DeliveredDealer(z: Ceremony, x: Key, s: Participant, from: Key, kind: Kind)
    requires ConfigFor(z, x, z.config(x))
    ensures var r := HandleBytes(z.config(x), s, from, z.encode(kind)).0;
      r.dealer.Some? == s.dealer.Some? && (s.dealer.Some? ==> s.dealer.value.Keys <= r.dealer.value.Keys)
  {
    if z.encode(kind) !in s.seen {
      DealerGrows(z.config(x), s.(seen := s.seen + {z.encode(kind)}), from, kind);
    }
  }

  /** A repeat was received before on the same channel: only its player sends it. */
  lemma RepeatWasTaken(z: Ceremony, s: System, x: Key, from: Key, kind: Kind)
    requires x in s.nodes && from in s.nodes && ConfigFor(z, x, z.config(x))
    requires ChannelsOk(s.nodes, s.sent) && NodeOrder(z, s, x)
    requires kind in s.sent(from, x) && z.encode(kind) in s.nodes[x].part.seen
    ensures kind.PlayerAck? ==> kind in Taken(s, from, x)
  {
    var a, other :| TakenAs(z, s, x, z.encode(kind), a, other);
    assert other == kind;
    assert ChannelOk(s.nodes[a], a, x, s.sent(a, x)) && ChannelOk(s.nodes[from], from, x, s.sent(from, x));
    assert kind in s.sent(a, x);
    assert KindOk(a, x, s.nodes[a].part.sentReady, kind) && KindOk(from, x, s.nodes[from].part.sentReady, kind);
  }

  lemma FreshAckTaken(z: Ceremony, x: Key, p: Participant, from: Key, kind: Kind)
    requires ConfigFor(z, x, z.config(x)) && from in z.participants && z.encode(kind) !in p.seen
    requires kind.PlayerAck? ==> kind.player == from && kind.dealer == x
    ensures AckTaken(z.config(x), HandleBytes(z.config(x), p, from, z.encode(kind)).0, from, kind)
  {
    var c, marked := z.config(x), p.(seen := p.seen + {z.encode(kind)});
    assert HandleBytes(c, p, from, z.encode(kind)) == Handle(c, marked, from, kind);
    AckIsTaken(c, marked, from, kind);
  }

  lemma NewAckTaken(z: Ceremony, s: System, x: Key, from: Key, kind: Kind)
    requires x in s.nodes && from in s.nodes && from in z.participants && ConfigFor(z, x, z.config(x))
    requires ChannelsOk(s.nodes, s.sent) && NodeOrder(z, s, x)
    requires kind in s.sent(from, x)
    ensures AckTaken(z.config(x), HandleBytes(z.config(x), s.nodes[x].part, from, z.encode(kind)).0, from, kind)
  {
    var p := s.nodes[x].part;
    if z.encode(kind) in p.seen {
      RepeatWasTaken(z, s, x, from, kind);
      assert kind.PlayerAck? ==> AckTaken(z.config(x), p, from, kind);
    } else {
      assert ChannelOk(s.nodes[from], from, x, s.sent(from, x));
      assert KindOk(from, x, s.nodes[from].part.sentReady, kind);
      FreshAckTaken(z, x, p, from, kind);
    }
  }

  /** One more message on channel `from` to `x`, nothing else. */
  ghost predicate OneMoreTaken(s: System, r: System, from: Key, x: Key, kind: Kind) {
    && r.nodes.Keys == s.nodes.Keys
    && (forall a <- s.nodes, b <- s.nodes :: a != from || b != x ==> Taken(r, a, b) == Taken(s, a, b))
    && Taken(r, from, x) == Taken(s, from, x) + [kind]
  }

  lemma ReceivedTaken(z: Ceremony, s: System, x: Key, from: Key, k: nat)
    requires x in s.nodes && from in s.nodes && GotOk(s) && k < |s.sent(from, x)| && k == s.got(from, x)
    ensures var r := Received(z, s, x, from, k); GotOk(r) && OneMoreTaken(s, r, from, x, s.sent(from, x)[k])
  {
    var r := Received(z, s, x, from, k);
    forall a <- s.nodes, b <- s.nodes
      ensures r.got(a, b) <= |r.sent(a, b)| && (a != from || b != x ==> Taken(r, a, b) == Taken(s, a, b))
    {
      assert s.got(a, b) <= |s.sent(a, b)|;
    }
    assert r.sent(from, x)[..k + 1] == s.sent(from, x)[..k] + [s.sent(from, x)[k]];
  }

  lemma SeenDelivered(z: Ceremony, s: System, r: System, x: Key, from: Key, kind: Kind)
    requires x in s.nodes && from in s.nodes && SeenTaken(z, s, x) && OneMoreTaken(s, r, from, x, kind)
    requires r.nodes[x].part.seen <= s.nodes[x].part.seen + {z.encode(kind)}
    ensures SeenTaken(z, r, x)
  {
    assert TakenAs(z, r, x, z.encode(kind), from, kind);
    forall b <- r.nodes[x].part.seen ensures exists a, other :: TakenAs(z, r, x, b, a, other) {
      if b != z.encode(kind) {
        var a, other :| TakenAs(z, s, x, b, a, other);
        assert TakenAs(z, r, x, b, a, other);
      }
    }
  }

  /** What one delivery does to the receiver: from `p` to `q`. */
  ghost predicate Delivers(z: Ceremony, x: Key, p: Participant, q: Participant, from: Key, kind: Kind) {
    && q.seen <= p.seen + {z.encode(kind)}
    && q.ready <= p.ready + (if kind == Ready(from) then {from} else {})
    && q.dealer.Some? == p.dealer.Some?
    && (p.dealer.Some? ==> p.dealer.value.Keys <= q.dealer.value.Keys)
    && AckTaken(z.config(x), q, from, kind)
  }

  lemma HandlerDelivers(z: Ceremony, s: System, x: Key, from: Key, kind: Kind)
    requires x in s.nodes && from in s.nodes && from in z.participants && ConfigFor(z, x, z.config(x))
    requires NodeOk(z, s.nodes, x) && ChannelsOk(s.nodes, s.sent) && NodeOrder(z, s, x)
    requires kind in s.sent(from, x)
    ensures var p := s.nodes[x].part;
      Delivers(z, x, p, HandleBytes(z.config(x), p, from, z.encode(kind)).0.(outgoing := []), from, kind)
  {
    var p := s.nodes[x].part;
    DkgConfluence.ReceiveSeen(z.config(x), p, from, z.encode(kind));
    ReceiveLocal(z, x, p, from, kind);
    DeliveredDealer(z, x, p, from, kind);
    NewAckTaken(z, s, x, from, kind);
  }

  lemma ReadyDelivered(s: System, r: System, x: Key, from: Key, kind: Kind)
    requires x in s.nodes && from in s.nodes && ReadyTaken(s, x) && OneMoreTaken(s, r, from, x, kind)
    requires r.nodes[x].part.ready <= s.nodes[x].part.ready + (if kind == Ready(from) then {from} else {})
    ensures ReadyTaken(r, x)
  {
    forall y <- r.nodes[x].part.ready | y != x ensures y in r.nodes && Ready(y) in Taken(r, y, x) {
      if y in s.nodes[x].part.ready {
        assert Ready(y) in Taken(s, y, x);
      }
    }
  }

  /** The receiver after a delivery, given what the handler did. */
  lemma ReceiverOrder(z: Ceremony, s: System, r: System, x: Key, from: Key, kind: Kind)
    requires x in s.nodes && from in s.nodes && NodeOrder(z, s, x) && OneMoreTaken(s, r, from, x, kind)
    requires Delivers(z, x, s.nodes[x].part, r.nodes[x].part, from, kind)
    requires r.nodes[x].phase == s.nodes[x].phase != Idle
    ensures NodeOrder(z, r, x)
  {
    SeenDelivered(z, s, r, x, from, kind);
    ReadyDelivered(s, r, x, from, kind);
    forall y <- r.nodes, other <- Taken(r, y, x) ensures AckTaken(z.config(x), r.nodes[x].part, y, other) {
      if y != from || other != kind {
        assert other in Taken(s, y, x);
        assert AckTaken(z.config(x), s.nodes[x].part, y, other);
      }
    }
  }

  lemma ReceivedOrder(z: Ceremony, s: System, x: Key, from: Key, k: nat)
    requires OrderOk(z, s) && x in s.nodes && from in s.nodes && from in z.participants
    requires ConfigFor(z, x, z.config(x)) && NodeOk(z, s.nodes, x) && ChannelsOk(s.nodes, s.sent)
    requires k < |s.sent(from, x)| && k == s.got(from, x) && Listening(s.nodes[x])
    ensures OrderOk(z, Received(z, s, x, from, k))
  {
    var r, kind := Received(z, s, x, from, k), s.sent(from, x)[k];
    ReceivedTaken(z, s, x, from, k);
    assert NodeOrder(z, s, x);
    HandlerDelivers(z, s, x, from, kind);
    forall y <- r.nodes ensures NodeOrder(z, r, y) {
      assert NodeOrder(z, s, y);
      if y == x {
        ReceiverOrder(z, s, r, x, from, kind);
      } else {
        OtherOrder(z, s, r, y);
      }
    }
  }

  lemma OtherOrder(z: Ceremony, s: System, r: System, y: Key)
    requires y in s.nodes && NodeOrder(z, s, y) && r.nodes.Keys == s.nodes.Keys && r.nodes[y] == s.nodes[y]
    requires forall a <- s.nodes :: Taken(r, a, y) == Taken(s, a, y)
    ensures NodeOrder(z, r, y)
  {
    forall b <- r.nodes[y].part.seen ensures exists a, kind :: TakenAs(z, r, y, b, a, kind) {
      var a, kind :| TakenAs(z, s, y, b, a, kind);
      assert TakenAs(z, r, y, b, a, kind);
    }
  }

  lemma ReadyStepKeeps(z: Ceremony, s: System, x: Key)
    requires OrderOk(z, s) && x in s.nodes && z.config(x).me == x
    ensures OrderOk(z, AfterReady(z, s, x))
  {
    var c, n := z.config(x), s.nodes[x];
    if n.phase == Collecting && CollectedAll(c, n.part) {
      assert NodeOrder(z, s, x);
      MovedOrder(z, s, x, BroadcastReady(c, n.part), Readying);
    }
  }

  lemma StartStepKeeps(z: Ceremony, s: System, x: Key, pub: PubMsg, shares: seq<(Key, PrivMsg)>)
    requires OrderOk(z, s) && x in s.nodes
    ensures OrderOk(z, AfterStart(z, s, x, pub, shares))
  {
    var c, n := z.config(x), s.nodes[x];
    if n.phase == Idle {
      assert NodeOrder(z, s, x);
      StartedOnly(c, n.part, pub, shares);
      MovedOrder(z, s, x, StartedDealer(c, n.part, pub, shares), Collecting);
    }
  }

  lemma StartedOnly(c: Config, s: Participant, pub: PubMsg, shares: seq<(Key, PrivMsg)>)
    ensures var r := StartedDealer(c, s, pub, shares);
      r.seen == s.seen && r.ready == s.ready && r.dealer == Some(map[])
  {
  }

  lemma FinalizeStepKeeps(z: Ceremony, s: System, x: Key)
    requires OrderOk(z, s) && x in s.nodes
    ensures OrderOk(z, AfterFinalize(z, s, x))
  {
    var c, n := z.config(x), s.nodes[x];
    if n.phase == Readying && AllReady(c, n.part) {
      assert FinalizedDealer(c, n.part).0.dealer.None?;
      MovedOrder(z, s, x, FinalizedDealer(c, n.part).0, PhaseAfter(FinalizedDealer(c, n.part).1));
    }
  }

  lemma NextOrder(z: Ceremony, s: System, step: Step)
    requires CeremonyOk(z) && SysInv(z, s) && OrderOk(z, s)
    requires step.Receive? ==> step.k == s.got(step.from, step.x)
    ensures OrderOk(z, Next(z, s, step))
  {
    if step.x in s.nodes {
      ConfigOf(z, s, step.x);
      match step
      case Start(x, pub, shares) => StartStepKeeps(z, s, x, pub, shares);
      case Receive(x, from, k) => ReceiveStepKeeps(z, s, x, from, k);
      case SignalReady(x) => ReadyStepKeeps(z, s, x);
      case FinalizeDealer(x) => FinalizeStepKeeps(z, s, x);
      case RequestLogs(x) => RequestStepKeeps(z, s, x);
      case Abort(x) => MovedOrder(z, s, x, s.nodes[x].part, Aborted);
    }
  }

  lemma RequestStepKeeps(z: Ceremony, s: System, x: Key)
    requires OrderOk(z, s) && x in s.nodes
    ensures OrderOk(z, AfterRequest(z, s, x))
  {
    if s.nodes[x].phase == Finalized && z.participants != [] && x != z.participants[0] {
      MovedOrder(z, s, x, Asking(z, s.nodes[x].part), Finalized);
    }
  }

  lemma ReceiveStepKeeps(z: Ceremony, s: System, x: Key, from: Key, k: nat)
    requires SysInv(z, s) && OrderOk(z, s) && x in s.nodes && ConfigFor(z, x, z.config(x)) && k == s.got(from, x)
    ensures OrderOk(z, AfterReceive(z, s, x, from, k))
  {
    var r := AfterReceive(z, s, x, from, k);
    if Listening(s.nodes[x]) && from in s.nodes && k < |s.sent(from, x)| {
      assert r == Received(z, s, x, from, k);
      assert NodeOk(z, s.nodes, x) && from in Elems(z.participants);
      ReceivedOrder(z, s, x, from, k);
    } else {
      assert r == s;
    }
  }

  lemma InitialOrder(z: Ceremony, s: System)
    requires Initial(z, s)
    ensures OrderOk(z, s)
  {
  }

  lemma {:induction false} RunOrder(z: Ceremony, s: System, steps: seq<Step>)
    requires CeremonyOk(z) && Initial(z, s) && InOrder(z, s, steps)
    ensures SysInv(z, Run(z, s, steps)) && OrderOk(z, Run(z, s, steps))
  {
    if steps == [] {
      InitialInv(z, s);
      InitialOrder(z, s);
    } else {
      var init, last := steps[..|steps| - 1], steps[|steps| - 1];
      RunOrder(z, s, init);
      NextKeeps(z, Run(z, s, init), last);
      NextOrder(z, Run(z, s, init), last);
    }
  }

  /** `x` has received the acknowledgement of `y`, and its dealer has recorded it if it
      accepts it. */
  ghost predicate HasAckOf(z: Ceremony, s: System, x: Key, y: Key)
    requires x in s.nodes
  {
    exists kind <- Taken(s, y, x) ::
      kind.PlayerAck? && kind.player == y && kind.dealer == x && DealerHas(z.config(x), s.nodes[x].part, y, kind.ack)
  }

  predicate DealerHas(c: Config, p: Participant, y: Key, ack: Ack) {
    p.dealer.Some? && (c.accepts(y, ack) ==> y in p.dealer.value)
  }

  lemma ReadyMeansAcked(z: Ceremony, s: System, x: Key, y: Key)
    requires SysInv(z, s) && OrderOk(z, s) && x in s.nodes && y in s.nodes && y != x
    requires y in s.nodes[x].part.ready && s.nodes[x].part.dealer.Some?
    ensures HasAckOf(z, s, x, y)
  {
    assert NodeOrder(z, s, x);
    assert s.got(y, x) <= |s.sent(y, x)|;
    assert ChannelOk(s.nodes[y], y, x, s.sent(y, x));
    var taken := Taken(s, y, x);
    var k :| 0 <= k < |taken| && taken[k] == Ready(y);
    assert s.sent(y, x)[k].Ready?;
    var kind :| kind in s.sent(y, x)[..k] && kind.PlayerAck?;
    assert kind in taken && kind in s.sent(y, x);
    assert KindOk(y, x, s.nodes[y].part.sentReady, kind);
    assert AckTaken(z.config(x), s.nodes[x].part, y, kind);
  }

  /** When channels are reliable and keep the order, a dealer about to finalize has
      processed the acknowledgement of every other player. */
  lemma DealerHasAllAcks(z: Ceremony, s: System, steps: seq<Step>, x: Key, y: Key)
    requires CeremonyOk(z) && Initial(z, s) && InOrder(z, s, steps) && y in z.participants && y != x
    requires var r := Run(z, s, steps);
      x in r.nodes && r.nodes[x].phase == Readying && AllReady(z.config(x), r.nodes[x].part)
    ensures HasAckOf(z, Run(z, s, steps), x, y)
  {
    RunOrder(z, s, steps);
    AboutToFinalize(z, Run(z, s, steps), x, y);
  }

  lemma AboutToFinalize(z: Ceremony, s: System, x: Key, y: Key)
    requires CeremonyOk(z) && SysInv(z, s) && OrderOk(z, s) && x in s.nodes && y in z.participants && y != x
    requires s.nodes[x].phase == Readying && AllReady(z.config(x), s.nodes[x].part)
    ensures HasAckOf(z, s, x, y)
  {
    ConfigOf(z, s, x);
    assert NodeOk(z, s.nodes, x) && NodeOrder(z, s, x);
    AllReadyIsAll(z.config(x), s.nodes[x].part);
    assert y in Elems(z.participants);
    ReadyMeansAcked(z, s, x, y);
  }
}
