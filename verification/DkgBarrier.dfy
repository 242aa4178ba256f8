/** The ceremony as a distributed system of honest, unrestored participants, and what its
    ready barrier guarantees when a dealer finalizes. */
module DkgBarrier {
  import opened Prelude
  import opened Dkg
  import opened DkgAgreement

  /** The participants, each with its own configuration, and the encoding they share. */
  datatype Ceremony = Ceremony(
    participants: seq<Key>,
    session: Session,
    config: Key -> Config,
    encode: Kind -> Bytes)

  ghost predicate ConfigFor(z: Ceremony, x: Key, c: Config) {
    && ConfigOk(c) && c.participants == z.participants && c.me == x && c.session == z.session
    && forall kind: Kind {:trigger z.encode(kind)} :: c.decode(z.encode(kind)) == Some(Message(Some(z.session), kind))
  }

  ghost predicate CeremonyOk(z: Ceremony) {
    Distinct(z.participants) && forall x <- z.participants :: ConfigFor(z, x, z.config(x))
  }

  /** Aborted stands for every timeout and every failure. */
  datatype Phase = Idle | Collecting | Readying | Finalized | Aborted

  datatype Node = Node(part: Participant, phase: Phase)

  /** `sent(a, b)` is everything `a` ever queued for `b`, in order; `got(a, b)` counts how
      much of it `b` has received in order. */
  datatype System = System(
    nodes: map<Key, Node>,
    sent: (Key, Key) -> seq<Kind>,
    got: (Key, Key) -> nat)

  datatype Step =
    | Start(x: Key, pub: PubMsg, shares: seq<(Key, PrivMsg)>)
    | Receive(x: Key, from: Key, k: nat)
    | SignalReady(x: Key)
    | FinalizeDealer(x: Key)
    | RequestLogs(x: Key)
    | Abort(x: Key)

  /** What the queue `q` of `x` holds for `y`: broadcasts leave out the sender. */
  function Sends(x: Key, q: seq<Outgoing>, y: Key): (r: seq<Kind>) {
    if q == [] then []
    else
      var rest, last := Sends(x, q[..|q| - 1], y), q[|q| - 1];
      if last.target == Some(y) || (last.target == None && y != x) then rest + [last.kind] else rest
  }

  /** Node `x` moves to `part` and `phase` and sends out its queue. */
  ghost function Moved(s: System, x: Key, part: Participant, phase: Phase): (r: System) {
    s.(nodes := s.nodes[x := Node(part.(outgoing := []), phase)],
       sent := (a: Key, b: Key) => if a == x then s.sent(a, b) + Sends(x, part.outgoing, b) else s.sent(a, b))
  }

  ghost predicate Listening(n: Node) {
    n.phase == Collecting || n.phase == Readying || n.phase == Finalized
  }

  ghost function Received(z: Ceremony, s: System, x: Key, from: Key, k: nat): (r: System)
    requires x in s.nodes && k < |s.sent(from, x)|
  {
    var part := HandleBytes(z.config(x), s.nodes[x].part, from, z.encode(s.sent(from, x)[k])).0;
    Moved(s, x, part, s.nodes[x].phase).(
      got := (a: Key, b: Key) => if a == from && b == x && s.got(a, b) == k then k + 1 else s.got(a, b))
  }

  ghost function AfterStart(z: Ceremony, s: System, x: Key, pub: PubMsg, shares: seq<(Key, PrivMsg)>): (r: System)
    requires x in s.nodes
  {
    if s.nodes[x].phase != Idle then s
    else Moved(s, x, StartedDealer(z.config(x), s.nodes[x].part, pub, shares), Collecting)
  }

  ghost function AfterReceive(z: Ceremony, s: System, x: Key, from: Key, k: nat): (r: System)
    requires x in s.nodes
  {
    if !Listening(s.nodes[x]) || from !in s.nodes || k >= |s.sent(from, x)| then s
    else Received(z, s, x, from, k)
  }

  ghost function AfterReady(z: Ceremony, s: System, x: Key): (r: System)
    requires x in s.nodes
  {
    var c, n := z.config(x), s.nodes[x];
    if n.phase != Collecting || !CollectedAll(c, n.part) then s else Moved(s, x, BroadcastReady(c, n.part), Readying)
  }

  ghost function AfterFinalize(z: Ceremony, s: System, x: Key): (r: System)
    requires x in s.nodes
  {
    var c, n := z.config(x), s.nodes[x];
    if n.phase != Readying || !AllReady(c, n.part) then s
    else Moved(s, x, FinalizedDealer(c, n.part).0, PhaseAfter(FinalizedDealer(c, n.part).1))
  }

  /** A dealer whose own log does not open gives up. */
  function PhaseAfter(error: Option<DkgError>): (r: Phase) {
    if error.None? then Finalized else Aborted
  }

  /** A participant other than the leader asks the leader for the logs. */
  ghost function AfterRequest(z: Ceremony, s: System, x: Key): (r: System)
    requires x in s.nodes
  {
    if s.nodes[x].phase != Finalized || z.participants == [] || x == z.participants[0] then s
    else Moved(s, x, Asking(z, s.nodes[x].part), Finalized)
  }

  ghost function Asking(z: Ceremony, part: Participant): (r: Participant)
    requires z.participants != []
  {
    part.(outgoing := [Outgoing(Some(z.participants[0]), Kind.RequestLogs)])
  }

  ghost function Next(z: Ceremony, s: System, step: Step): (r: System) {
    if step.x !in s.nodes then s
    else
      match step
      case Start(x, pub, shares) => AfterStart(z, s, x, pub, shares)
      case Receive(x, from, k) => AfterReceive(z, s, x, from, k)
      case SignalReady(x) => AfterReady(z, s, x)
      case FinalizeDealer(x) => AfterFinalize(z, s, x)
      case RequestLogs(x) => AfterRequest(z, s, x)
      case Abort(x) => Moved(s, x, s.nodes[x].part, Aborted)
  }

  ghost function Run(z: Ceremony, s: System, steps: seq<Step>): (r: System) {
    if steps == [] then s else Next(z, Run(z, s, steps[..|steps| - 1]), steps[|steps| - 1])
  }

  ghost predicate Initial(z: Ceremony, s: System) {
    && s.nodes == (map x: Key | x in Elems(z.participants) :: Node(FRESH, Idle))
    && forall a: Key, b: Key :: s.sent(a, b) == [] && s.got(a, b) == 0
  }

  // ----- one participant's step -----

  /** What a participant may queue: its own acknowledgements, each to its dealer, and its
      own ready signal once it has given it. */
  ghost predicate OutOk(c: Config, r: Participant, o: Outgoing) {
    && (o.kind.PlayerAck? ==> o.kind.player == c.me && o.target == Some(o.kind.dealer))
    && (o.kind.Ready? ==> o.kind.player == c.me && r.sentReady)
  }

  ghost predicate AckQueued(q: seq<Outgoing>, d: Key) {
    exists o <- q :: o.target == Some(d) && o.kind.PlayerAck?
  }

  ghost predicate LocalOk(c: Config, s: Participant, r: Participant) {
    && ParticipantOk(c, r)
    && s.acksSent <= r.acksSent
    && (s.sentReady ==> r.sentReady)
    && (forall o <- r.outgoing :: OutOk(c, r, o))
    && (forall d <- r.acksSent :: d in s.acksSent || AckQueued(r.outgoing, d))
  }

  lemma ProcessedLocal(c: Config, s: Participant, put: Participant, dealer: Key)
    requires ParticipantOk(c, Processed(c, put, dealer)) && put.acksSent == s.acksSent && put.sentReady == s.sentReady
    requires forall o <- put.outgoing :: OutOk(c, put, o)
    ensures LocalOk(c, s, Processed(c, put, dealer))
  {
    var r := Processed(c, put, dealer);
    if HasBoth(put, dealer) && c.verify(dealer, put.pubs[dealer], put.privs[dealer]).Some? {
      var o := r.outgoing[|r.outgoing| - 1];
      assert o in r.outgoing && o.target == Some(dealer) && o.kind.PlayerAck?;
      forall q <- r.outgoing ensures OutOk(c, r, q) {
        assert q == o || q in put.outgoing;
      }
    }
  }

  lemma HandleLocal(c: Config, s: Participant, from: Key, kind: Kind)
    requires ParticipantOk(c, s) && s.outgoing == []
    ensures LocalOk(c, s, Handle(c, s, from, kind).0)
  {
    HandleKeeps(c, s, from, kind);
    if from in c.participants {
      match kind
      case DealerPublic(dealer, pub) =>
        PublicLocal(c, s, from, dealer, pub);
      case DealerPrivate(dealer, share) =>
        PrivateLocal(c, s, from, dealer, share);
      case AllLogs(logs) => AddLogsOnly(c, s, logs);
      case _ => QuietLocal(c, s, from, kind);
    }
  }

  lemma PublicLocal(c: Config, s: Participant, from: Key, dealer: Key, pub: PubMsg)
    requires ParticipantOk(c, s) && s.outgoing == [] && from in c.participants
    ensures LocalOk(c, s, HandlePublic(c, s, from, dealer, pub).0)
  {
    PublicKeeps(c, s, from, dealer, pub);
    if HandlePublic(c, s, from, dealer, pub).1.None? {
      ProcessedLocal(c, s, s.(pubs := s.pubs[dealer := pub]), dealer);
    }
  }

  lemma PrivateLocal(c: Config, s: Participant, from: Key, dealer: Key, share: PrivMsg)
    requires ParticipantOk(c, s) && s.outgoing == [] && from in c.participants
    ensures LocalOk(c, s, HandlePrivate(c, s, from, dealer, share).0)
  {
    PrivateKeeps(c, s, from, dealer, share);
    if HandlePrivate(c, s, from, dealer, share).1.None? {
      ProcessedLocal(c, s, s.(privs := s.privs[dealer := share]), dealer);
    }
  }

  lemma QuietLocal(c: Config, s: Participant, from: Key, kind: Kind)
    requires ParticipantOk(c, Handle(c, s, from, kind).0) && s.outgoing == [] && from in c.participants
    requires !kind.DealerPublic? && !kind.DealerPrivate? && !kind.AllLogs?
    ensures LocalOk(c, s, Handle(c, s, from, kind).0)
  {
  }

  lemma OthersKeepReady(c: Config, s: Participant, from: Key, kind: Kind)
    requires kind.PlayerAck? || kind.SignedDealerLog? || kind.RequestLogs?
    ensures var r := Handle(c, s, from, kind).0; r.ready == s.ready && r.sentReady == s.sentReady
  {
  }

  /** The ready players after handling a message: at most its sender is new. */
  lemma HandleReady(c: Config, s: Participant, from: Key, kind: Kind)
    ensures var r := Handle(c, s, from, kind).0;
      r.sentReady == s.sentReady && r.ready == (if kind == Ready(from) && from in c.participants then s.ready + {from} else s.ready)
  {
    match kind
    case DealerPublic(dealer, pub) => PublicOnly(c, s, from, dealer, pub);
    case DealerPrivate(dealer, share) => PrivateOnly(c, s, from, dealer, share);
    case AllLogs(logs) => AddLogsOnly(c, s, logs);
    case Ready(player) =>
    case _ => OthersKeepReady(c, s, from, kind);
  }

  lemma ReceiveLocal(z: Ceremony, x: Key, s: Participant, from: Key, kind: Kind)
    requires ConfigFor(z, x, z.config(x)) && ParticipantOk(z.config(x), s) && s.outgoing == []
    ensures var r := HandleBytes(z.config(x), s, from, z.encode(kind)).0;
      && LocalOk(z.config(x), s, r)
      && r.sentReady == s.sentReady
      && r.ready <= s.ready + (if kind == Ready(from) then {from} else {})
  {
    var c, b := z.config(x), z.encode(kind);
    if b !in s.seen {
      var marked := s.(seen := s.seen + {b});
      assert HandleBytes(c, s, from, b) == Handle(c, marked, from, kind);
      HandleLocal(c, marked, from, kind);
      HandleReady(c, marked, from, kind);
      assert LocalOk(c, s, HandleBytes(c, s, from, b).0);
    }
  }

  lemma {:induction false} ShareMessagesOk(c: Config, shares: seq<(Key, PrivMsg)>)
    ensures forall o <- ShareMessages(c, shares) :: o.kind.DealerPrivate?
  {
    if shares != [] {
      ShareMessagesOk(c, shares[..|shares| - 1]);
    }
  }

  lemma StartLocal(c: Config, s: Participant, pub: PubMsg, shares: seq<(Key, PrivMsg)>)
    requires ConfigOk(c) && ParticipantOk(c, s) && s.outgoing == []
    ensures LocalOk(c, s, StartedDealer(c, s, pub, shares))
    ensures StartedDealer(c, s, pub, shares).ready == s.ready && StartedDealer(c, s, pub, shares).sentReady == s.sentReady
  {
    StartKeeps(c, s, pub, shares);
    ShareMessagesOk(c, shares);
    var put := s.(
      outgoing := s.outgoing + [Outgoing(None, DealerPublic(c.me, pub))] + ShareMessages(c, shares),
      privs := OwnShares(c, s.privs, shares), pubs := s.pubs[c.me := pub], dealer := Some(map[]));
    ProcessedLocal(c, s, put, c.me);
  }

  lemma ReadyLocal(c: Config, s: Participant)
    requires ConfigOk(c) && ParticipantOk(c, s) && s.outgoing == []
    ensures LocalOk(c, s, BroadcastReady(c, s)) && BroadcastReady(c, s).sentReady
    ensures BroadcastReady(c, s).ready <= s.ready + {c.me} && BroadcastReady(c, s).acksSent == s.acksSent
  {
  }

  lemma FinalizeLocal(c: Config, s: Participant)
    requires ConfigOk(c) && ParticipantOk(c, s) && s.outgoing == []
    ensures LocalOk(c, s, FinalizedDealer(c, s).0)
    ensures FinalizedDealer(c, s).0.ready == s.ready && FinalizedDealer(c, s).0.sentReady == s.sentReady
  {
    FinalizeKeeps(c, s);
  }

  // ----- queues -----

  lemma {:induction false} SendsFrom(x: Key, q: seq<Outgoing>, y: Key, kind: Kind)
    requires kind in Sends(x, q, y)
    ensures exists o <- q :: o.kind == kind && (o.target == Some(y) || (o.target == None && y != x))
  {
    var init, last := q[..|q| - 1], q[|q| - 1];
    assert last in q;
    if kind in Sends(x, init, y) {
      SendsFrom(x, init, y, kind);
      var o :| o in init && o.kind == kind && (o.target == Some(y) || (o.target == None && y != x));
      assert o in q;
    }
  }

  lemma {:induction false} SendsTo(x: Key, q: seq<Outgoing>, y: Key, o: Outgoing)
    requires o in q && o.target == Some(y)
    ensures o.kind in Sends(x, q, y)
  {
    var init, last := q[..|q| - 1], q[|q| - 1];
    assert q == init + [last];
    if o != last {
      SendsTo(x, init, y, o);
    }
  }

  lemma {:induction false} SendsBroadcast(x: Key, q: seq<Outgoing>, y: Key, o: Outgoing)
    requires o in q && o.target == None && y != x
    ensures o.kind in Sends(x, q, y)
  {
    var init, last := q[..|q| - 1], q[|q| - 1];
    assert q == init + [last];
    if o != last {
      SendsBroadcast(x, init, y, o);
    }
  }

  lemma {:induction false} ShareMessagesAre(c: Config, shares: seq<(Key, PrivMsg)>, o: Outgoing)
    ensures o in ShareMessages(c, shares) <==>
      exists e <- shares :: e.0 != c.me && o == Outgoing(Some(e.0), DealerPrivate(c.me, e.1))
  {
    if shares != [] {
      var init, last := shares[..|shares| - 1], shares[|shares| - 1];
      assert shares == init + [last];
      ShareMessagesAre(c, init, o);
    }
  }

  lemma StartQueues(c: Config, s: Participant, pub: PubMsg, shares: seq<(Key, PrivMsg)>, o: Outgoing)
    requires s.outgoing == []
    ensures o in ShareMessages(c, shares) ==> o in StartedDealer(c, s, pub, shares).outgoing
    ensures o in StartedDealer(c, s, pub, shares).outgoing ==>
      o in ShareMessages(c, shares) || o == Outgoing(None, DealerPublic(c.me, pub)) || o.kind.PlayerAck?
    ensures Outgoing(None, DealerPublic(c.me, pub)) in StartedDealer(c, s, pub, shares).outgoing
  {
  }

  /** A dealer sends its public message to everyone else and each share to its player and
      to nobody else. */
  lemma SharesReachTheirPlayers(c: Config, s: Participant, pub: PubMsg, shares: seq<(Key, PrivMsg)>, y: Key, share: PrivMsg)
    requires s.outgoing == [] && y != c.me
    ensures var q := StartedDealer(c, s, pub, shares).outgoing;
      && DealerPublic(c.me, pub) in Sends(c.me, q, y)
      && (DealerPrivate(c.me, share) in Sends(c.me, q, y) <==> (y, share) in shares)
  {
    var q := StartedDealer(c, s, pub, shares).outgoing;
    var mine := Outgoing(Some(y), DealerPrivate(c.me, share));
    StartQueues(c, s, pub, shares, mine);
    SendsBroadcast(c.me, q, y, Outgoing(None, DealerPublic(c.me, pub)));
    ShareMessagesAre(c, shares, mine);
    if (y, share) in shares {
      SendsTo(c.me, q, y, mine);
    }
    if DealerPrivate(c.me, share) in Sends(c.me, q, y) {
      SendsFrom(c.me, q, y, DealerPrivate(c.me, share));
      var o :| o in q && o.kind == DealerPrivate(c.me, share) && (o.target == Some(y) || (o.target == None && y != c.me));
      StartQueues(c, s, pub, shares, o);
      ShareMessagesAre(c, shares, o);
    }
  }

  /** A finalized dealer keeps its own log and sends it to everyone else. */
  lemma LogReachesEveryone(c: Config, s: Participant, y: Key)
    requires ConfigOk(c) && s.dealer.Some? && c.check(c.seal(s.dealer.value)).Some? && y != c.me
    ensures var (r, error) := FinalizedDealer(c, s);
      && error == None && r.dealer == None
      && c.me in r.signed && r.signed[c.me] == c.seal(s.dealer.value)
      && SignedDealerLog(c.seal(s.dealer.value)) in Sends(c.me, r.outgoing, y)
  {
    var (r, _) := FinalizedDealer(c, s);
    var o := Outgoing(None, SignedDealerLog(c.seal(s.dealer.value)));
    assert r.outgoing == s.outgoing + [o];
    SendsBroadcast(c.me, r.outgoing, y, o);
  }

  predicate AckIn(s: seq<Kind>) {
    exists k <- s :: k.PlayerAck?
  }

  lemma SendsAck(x: Key, q: seq<Outgoing>, y: Key)
    requires AckQueued(q, y)
    ensures AckIn(Sends(x, q, y))
  {
    var o :| o in q && o.target == Some(y) && o.kind.PlayerAck?;
    SendsTo(x, q, y, o);
  }

  // ----- the invariant of the system, on any network -----

  ghost predicate NodeOk(z: Ceremony, nodes: map<Key, Node>, x: Key)
    requires x in nodes
  {
    var n := nodes[x];
    && ParticipantOk(z.config(x), n.part)
    && n.part.outgoing == []
    && (n.part.sentReady ==> n.part.acksSent == Elems(z.participants))
    && (forall y <- n.part.ready :: y in nodes && nodes[y].part.sentReady)
    && (n.phase == Finalized ==> n.part.ready == Elems(z.participants))
  }

  ghost predicate NodesOk(z: Ceremony, nodes: map<Key, Node>) {
    forall x <- nodes :: NodeOk(z, nodes, x)
  }

  /** A ready signal comes after an acknowledgement on the same channel. */
  ghost predicate ReadyAfterAck(s: seq<Kind>) {
    forall k :: 0 <= k < |s| && s[k].Ready? ==> AckIn(s[..k])
  }

  ghost predicate KindOk(x: Key, y: Key, sentReady: bool, kind: Kind) {
    && (kind.PlayerAck? ==> kind.player == x && kind.dealer == y)
    && (kind.Ready? ==> kind.player == x && sentReady)
  }

  ghost predicate ChannelOk(n: Node, x: Key, y: Key, sent: seq<Kind>) {
    && (forall kind <- sent :: KindOk(x, y, n.part.sentReady, kind))
    && ReadyAfterAck(sent)
    && (y in n.part.acksSent ==> AckIn(sent))
  }

  ghost predicate SysInv(z: Ceremony, s: System) {
    && s.nodes.Keys == Elems(z.participants)
    && NodesOk(z, s.nodes)
    && ChannelsOk(s.nodes, s.sent)
  }

  /** What a node may do in one step. */
  ghost predicate MayMove(z: Ceremony, nodes: map<Key, Node>, x: Key, part: Participant, phase: Phase)
    requires x in nodes
  {
    && LocalOk(z.config(x), nodes[x].part, part)
    && (part.sentReady ==> part.acksSent == Elems(z.participants))
    && (forall y <- part.ready :: y in nodes && (if y == x then part.sentReady else nodes[y].part.sentReady))
    && (phase == Finalized ==> part.ready == Elems(z.participants))
    && (forall o <- part.outgoing :: o.kind.Ready? ==> nodes[x].part.acksSent == Elems(z.participants))
  }

  lemma NewKindOk(c: Config, x: Key, part: Participant, y: Key, kind: Kind)
    requires c.me == x && kind in Sends(x, part.outgoing, y) && forall o <- part.outgoing :: OutOk(c, part, o)
    ensures KindOk(x, y, part.sentReady, kind)
  {
    SendsFrom(x, part.outgoing, y, kind);
  }

  lemma {:induction false} SendsReady(x: Key, q: seq<Outgoing>, y: Key, kind: Kind)
    requires kind in Sends(x, q, y)
    ensures exists o <- q :: o.kind == kind
  {
    SendsFrom(x, q, y, kind);
  }

  lemma AckInPrefix(a: seq<Kind>, b: seq<Kind>, k: nat)
    requires AckIn(a) && |a| <= k <= |a + b|
    ensures AckIn((a + b)[..k])
  {
    var kind :| kind in a && kind.PlayerAck?;
    assert (a + b)[..k] == a + b[..k - |a|];
    assert kind in (a + b)[..k];
  }

  lemma MovedChannel(c: Config, n: Node, r: Node, x: Key, y: Key, sent: seq<Kind>, part: Participant)
    requires c.me == x && LocalOk(c, n.part, part) && r.part == part.(outgoing := [])
    requires ChannelOk(n, x, y, sent)
    requires forall o <- part.outgoing :: o.kind.Ready? ==> y in n.part.acksSent
    ensures ChannelOk(r, x, y, sent + Sends(x, part.outgoing, y))
  {
    var more := Sends(x, part.outgoing, y);
    forall kind <- more ensures KindOk(x, y, part.sentReady, kind) {
      NewKindOk(c, x, part, y, kind);
    }
    forall k | 0 <= k < |sent + more| && (sent + more)[k].Ready? ensures AckIn((sent + more)[..k]) {
      if k < |sent| {
        assert (sent + more)[..k] == sent[..k];
      } else {
        SendsReady(x, part.outgoing, y, more[k - |sent|]);
        AckInPrefix(sent, more, k);
      }
    }
    if y in part.acksSent {
      if y !in n.part.acksSent {
        SendsAck(x, part.outgoing, y);
        var kind :| kind in more && kind.PlayerAck?;
        assert kind in sent + more;
      } else {
        AckInPrefix(sent, more, |sent + more|);
        assert (sent + more)[..|sent + more|] == sent + more;
      }
    }
  }

  lemma MovedNode(z: Ceremony, nodes: map<Key, Node>, x: Key, part: Participant, phase: Phase, y: Key)
    requires x in nodes && y in nodes && NodeOk(z, nodes, y) && MayMove(z, nodes, x, part, phase)
    ensures NodeOk(z, nodes[x := Node(part.(outgoing := []), phase)], y)
  {
    if y == x {
      assert ParticipantOk(z.config(x), part.(outgoing := []));
    }
  }

  ghost predicate ChannelsOk(nodes: map<Key, Node>, sent: (Key, Key) -> seq<Kind>) {
    forall x <- nodes, y <- nodes :: ChannelOk(nodes[x], x, y, sent(x, y))
  }

  lemma MovedChannels(z: Ceremony, s: System, x: Key, part: Participant, phase: Phase)
    requires x in s.nodes && z.config(x).me == x && MayMove(z, s.nodes, x, part, phase)
    requires s.nodes.Keys == Elems(z.participants) && ChannelsOk(s.nodes, s.sent)
    ensures ChannelsOk(Moved(s, x, part, phase).nodes, Moved(s, x, part, phase).sent)
  {
    var r := Moved(s, x, part, phase);
    forall a <- r.nodes, b <- r.nodes ensures ChannelOk(r.nodes[a], a, b, r.sent(a, b)) {
      assert ChannelOk(s.nodes[a], a, b, s.sent(a, b));
      if a == x {
        MovedChannel(z.config(x), s.nodes[x], r.nodes[x], x, b, s.sent(x, b), part);
      }
    }
  }

  lemma MovedNodes(z: Ceremony, nodes: map<Key, Node>, x: Key, part: Participant, phase: Phase)
    requires x in nodes && NodesOk(z, nodes) && MayMove(z, nodes, x, part, phase)
    ensures NodesOk(z, nodes[x := Node(part.(outgoing := []), phase)])
  {
    var r := nodes[x := Node(part.(outgoing := []), phase)];
    forall y <- r ensures NodeOk(z, r, y) {
      MovedNode(z, nodes, x, part, phase, y);
    }
  }

  lemma MovedKeeps(z: Ceremony, s: System, x: Key, part: Participant, phase: Phase)
    requires SysInv(z, s) && x in s.nodes && z.config(x).me == x && MayMove(z, s.nodes, x, part, phase)
    ensures SysInv(z, Moved(s, x, part, phase))
  {
    MovedNodes(z, s.nodes, x, part, phase);
    MovedChannels(z, s, x, part, phase);
  }

  lemma ConfigOf(z: Ceremony, s: System, x: Key)
    requires CeremonyOk(z) && s.nodes.Keys == Elems(z.participants) && x in s.nodes
    ensures ConfigFor(z, x, z.config(x))
  {
    assert x in Elems(z.participants);
  }

  lemma CollectedIsAll(c: Config, s: Participant)
    requires ConfigOk(c) && ParticipantOk(c, s) && CollectedAll(c, s)
    ensures s.acksSent == Elems(c.participants)
  {
    DistinctSize(c.participants);
    FullSubset(s.acksSent, Elems(c.participants));
  }

  lemma AllReadyIsAll(c: Config, s: Participant)
    requires ConfigOk(c) && ParticipantOk(c, s) && AllReady(c, s)
    ensures s.ready == Elems(c.participants)
  {
    DistinctSize(c.participants);
    FullSubset(s.ready, Elems(c.participants));
  }

  lemma ReceiveKeepsInv(z: Ceremony, s: System, x: Key, from: Key, k: nat)
    requires SysInv(z, s) && x in s.nodes && ConfigFor(z, x, z.config(x)) && from in s.nodes && k < |s.sent(from, x)|
    ensures SysInv(z, Received(z, s, x, from, k))
  {
    var kind := s.sent(from, x)[k];
    assert NodeOk(z, s.nodes, x);
    assert ChannelOk(s.nodes[from], from, x, s.sent(from, x));
    assert KindOk(from, x, s.nodes[from].part.sentReady, kind);
    ReceiveMove(z, s.nodes, x, from, kind);
    MovedKeeps(z, s, x, HandleBytes(z.config(x), s.nodes[x].part, from, z.encode(kind)).0, s.nodes[x].phase);
  }

  lemma ReceiveStepKeepsInv(z: Ceremony, s: System, x: Key, from: Key, k: nat)
    requires SysInv(z, s) && x in s.nodes && ConfigFor(z, x, z.config(x))
    ensures SysInv(z, AfterReceive(z, s, x, from, k))
  {
    var r := AfterReceive(z, s, x, from, k);
    if Listening(s.nodes[x]) && from in s.nodes && k < |s.sent(from, x)| {
      assert r == Received(z, s, x, from, k);
      ReceiveKeepsInv(z, s, x, from, k);
    } else {
      assert r == s;
    }
  }

  lemma ReceiveMove(z: Ceremony, nodes: map<Key, Node>, x: Key, from: Key, kind: Kind)
    requires x in nodes && from in nodes && nodes.Keys == Elems(z.participants) && NodeOk(z, nodes, x)
    requires KindOk(from, x, nodes[from].part.sentReady, kind) && ConfigFor(z, x, z.config(x))
    ensures MayMove(z, nodes, x, HandleBytes(z.config(x), nodes[x].part, from, z.encode(kind)).0, nodes[x].phase)
  {
    var s := nodes[x].part;
    var r := HandleBytes(z.config(x), s, from, z.encode(kind)).0;
    ReceiveLocal(z, x, s, from, kind);
    if s.sentReady {
      assert r.acksSent <= Elems(z.participants);
    }
    ReadyOnlyGrows(z.config(x), s, from, z.encode(kind));
    assert r.ready <= Elems(z.participants);
  }

  lemma ReadyOnlyGrows(c: Config, s: Participant, from: Key, bytes: Bytes)
    requires ParticipantOk(c, s)
    ensures s.ready <= HandleBytes(c, s, from, bytes).0.ready
  {
    if bytes !in s.seen && c.decode(bytes).Some? {
      HandleReady(c, s.(seen := s.seen + {bytes}), from, c.decode(bytes).value.kind);
    }
  }

  lemma StartKeepsInv(z: Ceremony, s: System, x: Key, pub: PubMsg, shares: seq<(Key, PrivMsg)>)
    requires SysInv(z, s) && x in s.nodes && ConfigFor(z, x, z.config(x))
    ensures SysInv(z, AfterStart(z, s, x, pub, shares))
  {
    if s.nodes[x].phase == Idle {
        assert NodeOk(z, s.nodes, x);
      StartMove(z, s.nodes, x, pub, shares);
      MovedKeeps(z, s, x, StartedDealer(z.config(x), s.nodes[x].part, pub, shares), Collecting);
    }
  }

  lemma StartMove(z: Ceremony, nodes: map<Key, Node>, x: Key, pub: PubMsg, shares: seq<(Key, PrivMsg)>)
    requires x in nodes && NodeOk(z, nodes, x) && ConfigFor(z, x, z.config(x))
    ensures MayMove(z, nodes, x, StartedDealer(z.config(x), nodes[x].part, pub, shares), Collecting)
  {
    StartLocal(z.config(x), nodes[x].part, pub, shares);
  }

  lemma ReadyKeepsInv(z: Ceremony, s: System, x: Key)
    requires SysInv(z, s) && x in s.nodes && ConfigFor(z, x, z.config(x))
    ensures SysInv(z, AfterReady(z, s, x))
  {
    var c, n := z.config(x), s.nodes[x];
    if n.phase == Collecting && CollectedAll(c, n.part) {
        assert NodeOk(z, s.nodes, x);
      ReadyMove(z, s.nodes, x);
      MovedKeeps(z, s, x, BroadcastReady(c, n.part), Readying);
    }
  }

  lemma ReadyMove(z: Ceremony, nodes: map<Key, Node>, x: Key)
    requires x in nodes && NodeOk(z, nodes, x) && ConfigFor(z, x, z.config(x)) && CollectedAll(z.config(x), nodes[x].part)
    ensures MayMove(z, nodes, x, BroadcastReady(z.config(x), nodes[x].part), Readying)
  {
    CollectedIsAll(z.config(x), nodes[x].part);
    ReadyLocal(z.config(x), nodes[x].part);
  }

  lemma FinalizeKeepsInv(z: Ceremony, s: System, x: Key)
    requires SysInv(z, s) && x in s.nodes && ConfigFor(z, x, z.config(x))
    ensures SysInv(z, AfterFinalize(z, s, x))
  {
    var c, n := z.config(x), s.nodes[x];
    if n.phase == Readying && AllReady(c, n.part) {
        assert NodeOk(z, s.nodes, x);
      FinalizeMove(z, s.nodes, x);
      MovedKeeps(z, s, x, FinalizedDealer(c, n.part).0, PhaseAfter(FinalizedDealer(c, n.part).1));
    }
  }

  lemma FinalizeMove(z: Ceremony, nodes: map<Key, Node>, x: Key)
    requires x in nodes && NodeOk(z, nodes, x) && ConfigFor(z, x, z.config(x)) && AllReady(z.config(x), nodes[x].part)
    ensures var (part, error) := FinalizedDealer(z.config(x), nodes[x].part);
      MayMove(z, nodes, x, part, PhaseAfter(error))
  {
    AllReadyIsAll(z.config(x), nodes[x].part);
    FinalizeLocal(z.config(x), nodes[x].part);
  }

  lemma RequestKeepsInv(z: Ceremony, s: System, x: Key)
    requires SysInv(z, s) && x in s.nodes && ConfigFor(z, x, z.config(x))
    ensures SysInv(z, AfterRequest(z, s, x))
  {
    if s.nodes[x].phase == Finalized && z.participants != [] && x != z.participants[0] {
        RequestMove(z, s.nodes, x);
      MovedKeeps(z, s, x, Asking(z, s.nodes[x].part), Finalized);
    }
  }

  lemma RequestMove(z: Ceremony, nodes: map<Key, Node>, x: Key)
    requires x in nodes && NodesOk(z, nodes) && nodes[x].phase == Finalized && z.participants != []
    ensures MayMove(z, nodes, x, Asking(z, nodes[x].part), Finalized)
  {
    assert NodeOk(z, nodes, x);
  }

  lemma AbortKeepsInv(z: Ceremony, s: System, x: Key)
    requires SysInv(z, s) && x in s.nodes && ConfigFor(z, x, z.config(x))
    ensures SysInv(z, Moved(s, x, s.nodes[x].part, Aborted))
  {
    AbortMove(z, s.nodes, x);
    MovedKeeps(z, s, x, s.nodes[x].part, Aborted);
  }

  lemma AbortMove(z: Ceremony, nodes: map<Key, Node>, x: Key)
    requires x in nodes && NodesOk(z, nodes)
    ensures MayMove(z, nodes, x, nodes[x].part, Aborted)
  {
    assert NodeOk(z, nodes, x);
  }

  lemma NextKeeps(z: Ceremony, s: System, step: Step)
    requires CeremonyOk(z) && SysInv(z, s)
    ensures SysInv(z, Next(z, s, step))
  {
    if step.x in s.nodes {
      ConfigOf(z, s, step.x);
      match step
      case Start(x, pub, shares) => StartKeepsInv(z, s, x, pub, shares);
      case Receive(x, from, k) => ReceiveStepKeepsInv(z, s, x, from, k);
      case SignalReady(x) => ReadyKeepsInv(z, s, x);
      case FinalizeDealer(x) => FinalizeKeepsInv(z, s, x);
      case RequestLogs(x) => RequestKeepsInv(z, s, x);
      case Abort(x) => AbortKeepsInv(z, s, x);
    }
  }

  lemma InitialInv(z: Ceremony, s: System)
    requires CeremonyOk(z) && Initial(z, s)
    ensures SysInv(z, s)
  {
  }

  lemma {:induction false} RunKeeps(z: Ceremony, s: System, steps: seq<Step>)
    requires CeremonyOk(z) && SysInv(z, s)
    ensures SysInv(z, Run(z, s, steps))
  {
    if steps != [] {
      RunKeeps(z, s, steps[..|steps| - 1]);
      NextKeeps(z, Run(z, s, steps[..|steps| - 1]), steps[|steps| - 1]);
    }
  }

  /** `y` has queued its acknowledgement for dealer `d`. */
  ghost predicate HasAcked(s: System, y: Key, d: Key) {
    y in s.nodes && d in s.nodes[y].part.acksSent && exists k <- s.sent(y, d) :: k.PlayerAck? && k.player == y && k.dealer == d
  }

  lemma AckedOnChannel(z: Ceremony, s: System, y: Key, d: Key)
    requires SysInv(z, s) && y in s.nodes && d in s.nodes && s.nodes[y].part.sentReady
    ensures HasAcked(s, y, d)
  {
    assert NodeOk(z, s.nodes, y);
    assert ChannelOk(s.nodes[y], y, d, s.sent(y, d));
    var k :| k in s.sent(y, d) && k.PlayerAck?;
    assert KindOk(y, d, s.nodes[y].part.sentReady, k);
  }

  lemma FinalizedMeansReady(z: Ceremony, s: System, x: Key, y: Key)
    requires SysInv(z, s) && x in s.nodes && s.nodes[x].phase == Finalized && y in z.participants
    ensures y in s.nodes && s.nodes[y].part.sentReady
  {
    assert y in Elems(z.participants);
    assert NodeOk(z, s.nodes, x);
  }

  /** The barrier, whatever the network drops, delays, repeats or reorders: once any
      dealer has finalized, every participant has queued an acknowledgement for every
      dealer. */
  lemma Barrier(z: Ceremony, s: System, steps: seq<Step>, x: Key, y: Key, d: Key)
    requires CeremonyOk(z) && Initial(z, s) && y in z.participants && d in z.participants
    requires x in Run(z, s, steps).nodes && Run(z, s, steps).nodes[x].phase == Finalized
    ensures HasAcked(Run(z, s, steps), y, d)
  {
    InitialInv(z, s);
    RunKeeps(z, s, steps);
    FinalizedMeansReady(z, Run(z, s, steps), x, y);
    FinalizedMeansReady(z, Run(z, s, steps), x, d);
    AckedOnChannel(z, Run(z, s, steps), y, d);
  }
}
