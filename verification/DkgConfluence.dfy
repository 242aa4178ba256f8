/** Delivering the same envelopes in any order, with repeats, leads to the same maps and
    sets. */
module DkgConfluence {
  import opened Prelude
  import opened Dkg
  import opened DkgAgreement

  function Deliver(c: Config, s: Participant, es: seq<Envelope>): (r: Participant) {
    if es == [] then s
    else
      var last := es[|es| - 1];
      HandleBytes(c, Deliver(c, s, es[..|es| - 1]), last.from, last.bytes).0
  }

  lemma {:induction false} DeliverKeeps(c: Config, s: Participant, es: seq<Envelope>)
    requires ParticipantOk(c, s)
    ensures ParticipantOk(c, Deliver(c, s, es))
  {
    if es != [] {
      var init, last := es[..|es| - 1], es[|es| - 1];
      DeliverKeeps(c, s, init);
      ReceiveKeeps(c, Deliver(c, s, init), last.from, last.bytes);
    }
  }

  // ----- one message -----

  lemma ProcessedCells(c: Config, s: Participant, dealer: Key, x: Cell)
    ensures var r := Processed(c, s, dealer);
      (Filled(r, x) <==> Filled(s, x)) && (Filled(s, x) ==> Content(r, x) == Content(s, x))
  {
  }

  lemma PublicFills(c: Config, s: Participant, from: Key, dealer: Key, pub: PubMsg)
    requires ConfigOk(c) && KeysOk(c, s) && from in c.participants
    ensures FillsTo(c, from, DealerPublic(dealer, pub), s, HandlePublic(c, s, from, dealer, pub).0)
  {
    var kind, r := DealerPublic(dealer, pub), HandlePublic(c, s, from, dealer, pub).0;
    if from == dealer && dealer !in s.pubs {
      RoomLeft(c, s.pubs.Keys, dealer);
      var put := s.(pubs := s.pubs[dealer := pub]);
      forall x: Cell ensures (Filled(r, x) <==> Filled(put, x)) && (Filled(put, x) ==> Content(r, x) == Content(put, x)) {
        ProcessedCells(c, put, dealer, x);
      }
    }
  }

  lemma PrivateFills(c: Config, s: Participant, from: Key, dealer: Key, share: PrivMsg)
    requires ConfigOk(c) && KeysOk(c, s) && from in c.participants
    ensures FillsTo(c, from, DealerPrivate(dealer, share), s, HandlePrivate(c, s, from, dealer, share).0)
  {
    var kind, r := DealerPrivate(dealer, share), HandlePrivate(c, s, from, dealer, share).0;
    if from == dealer && dealer !in s.privs {
      RoomLeft(c, s.privs.Keys, dealer);
      var put := s.(privs := s.privs[dealer := share]);
      forall x: Cell ensures (Filled(r, x) <==> Filled(put, x)) && (Filled(put, x) ==> Content(r, x) == Content(put, x)) {
        ProcessedCells(c, put, dealer, x);
      }
    }
  }

  lemma LogFills(c: Config, s: Participant, from: Key, log: SignedLog)
    requires ConfigOk(c) && LogsOk(c, s) && from in c.participants
    ensures FillsTo(c, from, SignedDealerLog(log), s, HandleLog(c, s, log).0)
  {
    var checked := c.check(log);
    if checked.Some? && checked.value.0 in c.participants {
      if checked.value.0 !in s.logs {
        RoomLeft(c, s.logs.Keys, checked.value.0);
      }
    }
  }

  lemma BundleFillsNew(c: Config, s: Participant, r: Participant, from: Key, logs: seq<(Key, SignedLog)>, d: Key)
    requires from in c.participants && from == c.participants[0] && TakesLogs(c, s.signed, r.signed, logs)
    requires d in r.signed && d !in s.signed
    ensures KindOffers(c, from, AllLogs(logs), LogOf(d), r.signed[d])
  {
    assert InBundle(logs, r.signed[d]);
    var e :| e in logs && e.1 == r.signed[d];
    assert e.1 in LogsIn(AllLogs(logs));
  }

  lemma BundleFillsAll(c: Config, s: Participant, r: Participant, from: Key, logs: seq<(Key, SignedLog)>, x: Cell, v: nat)
    requires TakesLogs(c, s.signed, r.signed, logs) && KindOffers(c, from, AllLogs(logs), x, v)
    ensures Filled(r, x)
  {
    assert x.LogOf? && v in LogsIn(AllLogs(logs));
    var e :| e in logs && e.1 == v;
    assert IsLogOf(c, e.1, x.dealer);
  }

  lemma BundleFills(c: Config, s: Participant, r: Participant, from: Key, logs: seq<(Key, SignedLog)>)
    requires from in c.participants && from == c.participants[0] && TakesLogs(c, s.signed, r.signed, logs)
    requires r == s.(logs := r.logs, signed := r.signed)
    ensures FillsTo(c, from, AllLogs(logs), s, r)
  {
    forall x: Cell | Filled(r, x) && !Filled(s, x) ensures KindOffers(c, from, AllLogs(logs), x, Content(r, x)) {
      BundleFillsNew(c, s, r, from, logs, x.dealer);
    }
    forall x: Cell, v: nat | KindOffers(c, from, AllLogs(logs), x, v) ensures Filled(r, x) {
      BundleFillsAll(c, s, r, from, logs, x, v);
    }
  }

  lemma ReadyFills(c: Config, s: Participant, from: Key, player: Key)
    requires from in c.participants
    ensures FillsTo(c, from, Ready(player), s, Handle(c, s, from, Ready(player)).0)
  {
  }

  /** A message that offers nothing and changes no cell. */
  lemma NothingFills(c: Config, s: Participant, r: Participant, from: Key, kind: Kind)
    requires r.pubs == s.pubs && r.privs == s.privs && r.signed == s.signed && r.ready == s.ready
    requires from !in c.participants || kind.PlayerAck? || kind.RequestLogs? || (kind.AllLogs? && from != c.participants[0])
    ensures FillsTo(c, from, kind, s, r)
  {
    forall x: Cell ensures Filled(r, x) == Filled(s, x) && (Filled(s, x) ==> Content(r, x) == Content(s, x)) {
    }
  }

  lemma HandleFills(c: Config, s: Participant, from: Key, kind: Kind)
    requires ConfigOk(c) && ParticipantOk(c, s)
    ensures FillsTo(c, from, kind, s, Handle(c, s, from, kind).0)
  {
    if from !in c.participants {
      NothingFills(c, s, s, from, kind);
    } else {
      match kind
      case DealerPublic(dealer, pub) => PublicFills(c, s, from, dealer, pub);
      case DealerPrivate(dealer, share) => PrivateFills(c, s, from, dealer, share);
      case SignedDealerLog(log) => LogFills(c, s, from, log);
      case Ready(player) => ReadyFills(c, s, from, player);
      case AllLogs(logs) =>
        if from == c.participants[0] {
          AddLogsOnly(c, s, logs);
          AddLogsFills(c, s, logs);
          BundleFills(c, s, AddLogs(c, s, logs), from, logs);
        } else {
          NothingFills(c, s, s, from, kind);
        }
      case RequestLogs => NothingFills(c, s, Handle(c, s, from, kind).0, from, kind);
      case PlayerAck(player, dealer, ack) => NothingFills(c, s, HandleAck(c, s, from, player, dealer, ack).0, from, kind);
    }
  }

  // ----- many messages -----

  /** No earlier envelope has the same bytes. */
  predicate IsFirst(es: seq<Envelope>, i: nat)
    requires i < |es|
  {
    !BytesIn(es[..i], es[i].bytes)
  }

  /** The first envelope with some new bytes offers `v` for `x`. */
  ghost predicate Offered(c: Config, seen: set<Bytes>, es: seq<Envelope>, x: Cell, v: nat) {
    exists i: nat :: OfferedAt(c, seen, es, x, v, i)
  }

  ghost predicate OfferedAt(c: Config, seen: set<Bytes>, es: seq<Envelope>, x: Cell, v: nat, i: nat) {
    i < |es| && IsFirst(es, i) && es[i].bytes !in seen && Offers(c, es[i], x, v)
  }

  ghost predicate SeenOk(c: Config, s: Participant, es: seq<Envelope>, r: Participant) {
    forall b: Bytes :: b in r.seen <==> b in s.seen || (Admitted(c, b) && BytesIn(es, b))
  }

  predicate BytesIn(es: seq<Envelope>, b: Bytes) {
    exists e <- es :: e.bytes == b
  }

  /** The cells after delivering `es` to `s`: those filled before, with the same content,
      and those that the first envelope with some new bytes offers. */
  ghost predicate CellsOk(c: Config, s: Participant, es: seq<Envelope>, r: Participant) {
    && (forall x: Cell :: Filled(s, x) ==> Filled(r, x) && Content(r, x) == Content(s, x))
    && (forall x: Cell :: Filled(r, x) && !Filled(s, x) ==> Offered(c, s.seen, es, x, Content(r, x)))
    && (forall x: Cell, v: nat :: Offered(c, s.seen, es, x, v) ==> Filled(r, x))
  }

  lemma HandleSeen(c: Config, s: Participant, from: Key, kind: Kind)
    ensures Handle(c, s, from, kind).0.seen == s.seen
  {
    match kind
    case DealerPublic(dealer, pub) => PublicOnly(c, s, from, dealer, pub);
    case DealerPrivate(dealer, share) => PrivateOnly(c, s, from, dealer, share);
    case AllLogs(logs) => AddLogsOnly(c, s, logs);
    case _ =>
  }

  lemma ReceiveSeen(c: Config, s: Participant, from: Key, bytes: Bytes)
    ensures HandleBytes(c, s, from, bytes).0.seen == s.seen + (if Admitted(c, bytes) then {bytes} else {})
  {
    if bytes in s.seen {
      assert s.seen + {bytes} == s.seen;
    } else if Admitted(c, bytes) {
      AdmittedBytes(c, s, from, bytes);
      HandleSeen(c, s.(seen := s.seen + {bytes}), from, c.decode(bytes).value.kind);
    } else {
      UnadmittedIgnored(c, s, from, bytes);
    }
  }

  lemma AdmittedBytes(c: Config, s: Participant, from: Key, bytes: Bytes)
    requires bytes !in s.seen && Admitted(c, bytes)
    ensures HandleBytes(c, s, from, bytes) == Handle(c, s.(seen := s.seen + {bytes}), from, c.decode(bytes).value.kind)
  {
  }

  lemma BytesGrow(init: seq<Envelope>, last: Envelope, b: Bytes)
    ensures BytesIn(init + [last], b) <==> BytesIn(init, b) || last.bytes == b
  {
    assert forall e :: e in init + [last] <==> e in init || e == last;
  }

  lemma StepSeen(c: Config, s: Participant, mid: Participant, init: seq<Envelope>, last: Envelope)
    requires SeenOk(c, s, init, mid)
    ensures SeenOk(c, s, init + [last], HandleBytes(c, mid, last.from, last.bytes).0)
  {
    ReceiveSeen(c, mid, last.from, last.bytes);
    forall b: Bytes ensures BytesIn(init + [last], b) <==> BytesIn(init, b) || last.bytes == b {
      BytesGrow(init, last, b);
    }
  }

  lemma OfferedGrows(c: Config, seen: set<Bytes>, init: seq<Envelope>, last: Envelope, x: Cell, v: nat)
    ensures Offered(c, seen, init + [last], x, v) <==>
      Offered(c, seen, init, x, v) || (last.bytes !in seen && !BytesIn(init, last.bytes) && Offers(c, last, x, v))
  {
    var es := init + [last];
    assert forall i: nat :: i <= |init| ==> es[..i] == init[..i];
    assert init[..|init|] == init;
    if Offered(c, seen, init, x, v) {
      var i: nat :| OfferedAt(c, seen, init, x, v, i);
      assert OfferedAt(c, seen, es, x, v, i);
    }
    if last.bytes !in seen && !BytesIn(init, last.bytes) && Offers(c, last, x, v) {
      assert OfferedAt(c, seen, es, x, v, |init|);
    }
    if Offered(c, seen, es, x, v) {
      var i: nat :| OfferedAt(c, seen, es, x, v, i);
      assert i < |init| ==> OfferedAt(c, seen, init, x, v, i);
    }
  }

  /** Repeats and bytes that are not admitted offer nothing. */
  lemma StepCellsSame(c: Config, s: Participant, mid: Participant, init: seq<Envelope>, last: Envelope)
    requires CellsOk(c, s, init, mid)
    requires last.bytes in s.seen || BytesIn(init, last.bytes) || !Admitted(c, last.bytes)
    ensures CellsOk(c, s, init + [last], mid)
  {
    forall x: Cell, v: nat ensures Offered(c, s.seen, init + [last], x, v) <==> Offered(c, s.seen, init, x, v) {
      OfferedGrows(c, s.seen, init, last, x, v);
    }
  }

  lemma StepCellsNew(c: Config, s: Participant, mid: Participant, r: Participant, init: seq<Envelope>, last: Envelope)
    requires CellsOk(c, s, init, mid) && Admitted(c, last.bytes) && last.bytes !in s.seen && !BytesIn(init, last.bytes)
    requires FillsTo(c, last.from, c.decode(last.bytes).value.kind, mid, r)
    ensures CellsOk(c, s, init + [last], r)
  {
    forall x: Cell, v: nat ensures Offered(c, s.seen, init + [last], x, v)
      <==> Offered(c, s.seen, init, x, v) || Offers(c, last, x, v)
    {
      OfferedGrows(c, s.seen, init, last, x, v);
    }
  }

  lemma StepCells(c: Config, s: Participant, mid: Participant, init: seq<Envelope>, last: Envelope)
    requires ConfigOk(c) && ParticipantOk(c, mid)
    requires SeenOk(c, s, init, mid) && CellsOk(c, s, init, mid)
    ensures CellsOk(c, s, init + [last], HandleBytes(c, mid, last.from, last.bytes).0)
  {
    if last.bytes in mid.seen || !Admitted(c, last.bytes) {
      StepCellsSame(c, s, mid, init, last);
      assert HandleBytes(c, mid, last.from, last.bytes).0 == mid;
    } else {
      var kind, marked := c.decode(last.bytes).value.kind, mid.(seen := mid.seen + {last.bytes});
      var r := Handle(c, marked, last.from, kind).0;
      assert HandleBytes(c, mid, last.from, last.bytes).0 == r;
      HandleFills(c, marked, last.from, kind);
      SameCellsWithSeen(mid, mid.seen + {last.bytes});
      StepCellsNew(c, s, mid, r, init, last);
    }
  }

  lemma SameCellsWithSeen(s: Participant, seen: set<Bytes>)
    ensures forall x: Cell :: Filled(s.(seen := seen), x) == Filled(s, x)
    ensures forall x: Cell :: Filled(s, x) ==> Content(s.(seen := seen), x) == Content(s, x)
  {
  }

  lemma {:induction false} DeliverCells(c: Config, s: Participant, es: seq<Envelope>)
    requires ConfigOk(c) && ParticipantOk(c, s)
    ensures SeenOk(c, s, es, Deliver(c, s, es)) && CellsOk(c, s, es, Deliver(c, s, es))
  {
    if es != [] {
      var init, last := es[..|es| - 1], es[|es| - 1];
      assert es == init + [last];
      DeliverCells(c, s, init);
      DeliverKeeps(c, s, init);
      StepSeen(c, s, Deliver(c, s, init), init, last);
      StepCells(c, s, Deliver(c, s, init), init, last);
    }
  }

  lemma SeenIgnored(c: Config, s: Participant, from: Key, bytes: Bytes)
    requires bytes in s.seen
    ensures HandleBytes(c, s, from, bytes) == (s, None)
  {
  }

  lemma UnadmittedIgnored(c: Config, s: Participant, from: Key, bytes: Bytes)
    requires !Admitted(c, bytes)
    ensures HandleBytes(c, s, from, bytes).0 == s
  {
  }

  /** Bytes that were handled once, and bytes of another session, change nothing. */
  lemma RepeatsAndStrangersIgnored(c: Config, s: Participant, r: Participant, from: Key, other: Key, bytes: Bytes)
    requires r == HandleBytes(c, s, from, bytes).0
    ensures !Admitted(c, bytes) ==> r == s
    ensures Admitted(c, bytes) ==> HandleBytes(c, r, other, bytes) == (r, None)
  {
    if Admitted(c, bytes) {
      assert bytes in r.seen by { ReceiveSeen(c, s, from, bytes); }
      SeenIgnored(c, r, other, bytes);
    } else {
      UnadmittedIgnored(c, s, from, bytes);
    }
  }

  ghost predicate OfferedSome(c: Config, seen: set<Bytes>, es: seq<Envelope>, x: Cell) {
    exists v: nat :: Offered(c, seen, es, x, v)
  }

  /** After any delivery a place is filled exactly when it was before or the first envelope
      with some new bytes offers it. */
  lemma FilledIffOffered(c: Config, s: Participant, es: seq<Envelope>, x: Cell)
    requires ConfigOk(c) && ParticipantOk(c, s)
    ensures Filled(Deliver(c, s, es), x) <==> Filled(s, x) || OfferedSome(c, s.seen, es, x)
  {
    DeliverCells(c, s, es);
  }

  /** After any delivery the ceremony can be finalized exactly when a log of every
      participant was there before or was offered by the first envelope with some new
      bytes. */
  lemma FinalizableIffLogsOffered(c: Config, s: Participant, es: seq<Envelope>)
    requires ConfigOk(c) && ParticipantOk(c, s)
    ensures CanFinalize(c, Deliver(c, s, es)) <==>
      forall d <- Elems(c.participants) :: HasLogAfter(c, s, es, d)
  {
    forall d <- Elems(c.participants) ensures d in Deliver(c, s, es).signed <==> HasLogAfter(c, s, es, d) {
      FilledIffOffered(c, s, es, LogOf(d));
    }
    DeliverKeeps(c, s, es);
    FinalizableIff(c, s, Deliver(c, s, es), es);
  }

  ghost predicate HasLogAfter(c: Config, s: Participant, es: seq<Envelope>, d: Key) {
    d in s.signed || OfferedSome(c, s.seen, es, LogOf(d))
  }

  lemma FinalizableIff(c: Config, s: Participant, r: Participant, es: seq<Envelope>)
    requires ConfigOk(c) && LogsOk(c, r)
    requires forall d <- Elems(c.participants) :: d in r.signed <==> HasLogAfter(c, s, es, d)
    ensures CanFinalize(c, r) <==> forall d <- Elems(c.participants) :: HasLogAfter(c, s, es, d)
  {
    FinalizableHasAll(c, r);
  }

  // ----- acknowledgements -----

  /** Since `s`, exactly the dealers that became complete and verify were acknowledged. */
  ghost predicate AcksFollow(c: Config, s: Participant, r: Participant) {
    forall d: Key :: d in r.acksSent <==> (d in s.acksSent || NewlyVerified(c, s, r, d))
  }

  predicate NewlyVerified(c: Config, s: Participant, r: Participant, d: Key) {
    HasBoth(r, d) && !HasBoth(s, d) && c.verify(d, r.pubs[d], r.privs[d]).Some?
  }

  ghost predicate KeepsMessages(s: Participant, r: Participant) {
    && (forall d <- s.pubs :: d in r.pubs && r.pubs[d] == s.pubs[d])
    && (forall d <- s.privs :: d in r.privs && r.privs[d] == s.privs[d])
  }

  function AckDealers(q: seq<Outgoing>): (r: seq<Key>) {
    if q == [] then []
    else
      var rest, last := AckDealers(q[..|q| - 1]), q[|q| - 1];
      if last.kind.PlayerAck? then rest + [last.kind.dealer] else rest
  }

  /** At most one acknowledgement is queued per dealer. */
  ghost predicate OneAckEach(s: Participant) {
    Distinct(AckDealers(s.outgoing)) && Elems(AckDealers(s.outgoing)) <= s.acksSent
  }

  lemma QueueAck(s: Participant, out: Outgoing)
    requires OneAckEach(s)
    ensures out.kind.PlayerAck? && out.kind.dealer !in s.acksSent ==>
      OneAckEach(s.(outgoing := s.outgoing + [out], acksSent := s.acksSent + {out.kind.dealer}))
    ensures !out.kind.PlayerAck? ==> OneAckEach(s.(outgoing := s.outgoing + [out]))
  {
    assert (s.outgoing + [out])[..|s.outgoing|] == s.outgoing;
    if out.kind.PlayerAck? && out.kind.dealer !in s.acksSent {
      var before := AckDealers(s.outgoing);
      assert out.kind.dealer !in Elems(before);
      DistinctConcat(before, [out.kind.dealer]);
      assert Elems(before + [out.kind.dealer]) == Elems(before) + {out.kind.dealer};
    }
  }

  ghost predicate AcksOk(c: Config, s: Participant, r: Participant) {
    AcksFollow(c, s, r) && KeepsMessages(s, r) && OneAckEach(r)
  }

  /** Completing a dealer: `put` is `mid` with one more of its messages. */
  lemma ProcessedAcks(c: Config, s: Participant, mid: Participant, put: Participant, dealer: Key)
    requires AcksOk(c, s, mid) && KeysOk(c, mid)
    requires KeepsMessages(mid, put) && put == mid.(pubs := put.pubs, privs := put.privs) && !HasBoth(mid, dealer)
    requires forall d :: d != dealer ==> HasBoth(put, d) == HasBoth(mid, d)
    ensures AcksOk(c, s, Processed(c, put, dealer))
  {
    if HasBoth(put, dealer) {
      var ack := c.verify(dealer, put.pubs[dealer], put.privs[dealer]);
      if ack.Some? {
        QueueAck(put, Outgoing(Some(dealer), PlayerAck(c.me, dealer, ack.value)));
      }
    }
    var r := Processed(c, put, dealer);
    forall d: Key ensures d in r.acksSent <==> (d in s.acksSent || NewlyVerified(c, s, r, d)) {
      assert HasBoth(r, d) == HasBoth(put, d);
      assert d in mid.acksSent <==> (d in s.acksSent || NewlyVerified(c, s, mid, d));
      if d != dealer {
        assert HasBoth(put, d) == HasBoth(mid, d);
        assert NewlyVerified(c, s, r, d) == NewlyVerified(c, s, mid, d);
      }
    }
  }

  lemma PublicAcks(c: Config, s: Participant, mid: Participant, from: Key, dealer: Key, pub: PubMsg)
    requires AcksOk(c, s, mid) && KeysOk(c, mid)
    ensures AcksOk(c, s, HandlePublic(c, mid, from, dealer, pub).0)
  {
    if dealer !in mid.pubs {
      ProcessedAcks(c, s, mid, mid.(pubs := mid.pubs[dealer := pub]), dealer);
    }
  }

  lemma PrivateAcks(c: Config, s: Participant, mid: Participant, from: Key, dealer: Key, share: PrivMsg)
    requires AcksOk(c, s, mid) && KeysOk(c, mid)
    ensures AcksOk(c, s, HandlePrivate(c, mid, from, dealer, share).0)
  {
    if dealer !in mid.privs {
      ProcessedAcks(c, s, mid, mid.(privs := mid.privs[dealer := share]), dealer);
    }
  }

  /** Only these four fields matter for the acknowledgements. */
  lemma SameAckParts(c: Config, s: Participant, mid: Participant, r: Participant)
    requires AcksOk(c, s, mid)
    requires r.pubs == mid.pubs && r.privs == mid.privs && r.acksSent == mid.acksSent && r.outgoing == mid.outgoing
    ensures AcksOk(c, s, r)
  {
    assert forall d :: HasBoth(r, d) == HasBoth(mid, d) && NewlyVerified(c, s, r, d) == NewlyVerified(c, s, mid, d);
  }

  lemma RequestAcks(c: Config, s: Participant, mid: Participant, out: Outgoing)
    requires AcksOk(c, s, mid) && !out.kind.PlayerAck?
    ensures AcksOk(c, s, mid.(outgoing := mid.outgoing + [out]))
  {
    var r := mid.(outgoing := mid.outgoing + [out]);
    QueueAck(mid, out);
    assert forall d :: HasBoth(r, d) == HasBoth(mid, d) && NewlyVerified(c, s, r, d) == NewlyVerified(c, s, mid, d);
  }

  lemma HandleAcks(c: Config, s: Participant, mid: Participant, from: Key, kind: Kind)
    requires AcksOk(c, s, mid) && ParticipantOk(c, mid) && from in c.participants
    ensures AcksOk(c, s, Handle(c, mid, from, kind).0)
  {
    match kind
    case DealerPublic(dealer, pub) => PublicAcks(c, s, mid, from, dealer, pub);
    case DealerPrivate(dealer, share) => PrivateAcks(c, s, mid, from, dealer, share);
    case RequestLogs => RequestAcks(c, s, mid, Outgoing(Some(from), AllLogs(LogBundle(mid.signed))));
    case AllLogs(logs) =>
      AddLogsOnly(c, mid, logs);
      SameAckParts(c, s, mid, Handle(c, mid, from, kind).0);
    case _ =>
      QuietKind(c, mid, from, kind);
      SameAckParts(c, s, mid, Handle(c, mid, from, kind).0);
  }

  lemma QuietKind(c: Config, s: Participant, from: Key, kind: Kind)
    requires kind.PlayerAck? || kind.SignedDealerLog? || kind.Ready?
    ensures var r := Handle(c, s, from, kind).0;
      r.pubs == s.pubs && r.privs == s.privs && r.acksSent == s.acksSent && r.outgoing == s.outgoing
  {
  }

  lemma ReceiveAcks(c: Config, s: Participant, mid: Participant, from: Key, bytes: Bytes)
    requires AcksOk(c, s, mid) && ParticipantOk(c, mid)
    ensures AcksOk(c, s, HandleBytes(c, mid, from, bytes).0)
  {
    if bytes !in mid.seen && Admitted(c, bytes) {
      var marked, kind := mid.(seen := mid.seen + {bytes}), c.decode(bytes).value.kind;
      SameAckParts(c, s, mid, marked);
      if from in c.participants {
        HandleAcks(c, s, marked, from, kind);
      }
      assert HandleBytes(c, mid, from, bytes) == Handle(c, marked, from, kind);
    } else {
      assert HandleBytes(c, mid, from, bytes).0 == mid;
    }
  }

  lemma {:induction false} DeliverAcks(c: Config, s: Participant, es: seq<Envelope>)
    requires ParticipantOk(c, s) && OneAckEach(s)
    ensures AcksOk(c, s, Deliver(c, s, es))
  {
    if es != [] {
      var init, last := es[..|es| - 1], es[|es| - 1];
      DeliverAcks(c, s, init);
      DeliverKeeps(c, s, init);
      ReceiveAcks(c, s, Deliver(c, s, init), last.from, last.bytes);
    }
  }

  // ----- confluence -----

  ghost predicate SameView(a: Participant, b: Participant) {
    && a.pubs == b.pubs && a.privs == b.privs
    && a.logs == b.logs && a.signed == b.signed
    && a.acksSent == b.acksSent && a.ready == b.ready
  }

  /** Whether the envelope offers anything for the place. */
  ghost predicate OffersFor(c: Config, e: Envelope, x: Cell) {
    exists v: nat :: Offers(c, e, x, v)
  }

  /** At most one public message, one private message and one log per dealer that is not
      there yet. */
  ghost predicate OneOfEach(c: Config, s: Participant, es: set<Envelope>) {
    forall a <- es, b <- es, x: Cell, v: nat, w: nat :: !Filled(s, x) && Offers(c, a, x, v) && Offers(c, b, x, w) ==> v == w
  }

  /** New bytes all of whose envelopes offer the place. */
  ghost predicate Carries(c: Config, seen: set<Bytes>, es: set<Envelope>, x: Cell, sample: Envelope) {
    sample in es && sample.bytes !in seen && forall e <- es :: e.bytes == sample.bytes ==> OffersFor(c, e, x)
  }

  /** Nobody with new bytes offers the place, or some new bytes offer it whoever sends
      them. */
  ghost predicate Steady(c: Config, seen: set<Bytes>, es: set<Envelope>, x: Cell) {
    || (forall e <- es :: e.bytes !in seen ==> !OffersFor(c, e, x))
    || (exists e :: Carries(c, seen, es, x, e))
  }

  ghost predicate AllSteady(c: Config, s: Participant, es: set<Envelope>) {
    forall x: Cell :: !Filled(s, x) ==> Steady(c, s.seen, es, x)
  }

  /** Every occurrence of bytes has a first one. */
  lemma {:induction false} FirstOf(es: seq<Envelope>, b: Bytes) returns (i: nat)
    requires BytesIn(es, b)
    ensures i < |es| && es[i].bytes == b && IsFirst(es, i)
  {
    var init, last := es[..|es| - 1], es[|es| - 1];
    assert es == init + [last];
    BytesGrow(init, last, b);
    if BytesIn(init, b) {
      i := FirstOf(init, b);
      assert es[..i] == init[..i];
    } else {
      i := |init|;
      assert es[..i] == init;
    }
  }

  /** What is carried is filled in every order. */
  lemma CarriedIsOffered(c: Config, seen: set<Bytes>, es: seq<Envelope>, x: Cell, sample: Envelope) returns (v: nat)
    requires Carries(c, seen, Elems(es), x, sample)
    ensures Offered(c, seen, es, x, v)
  {
    assert BytesIn(es, sample.bytes);
    var i := FirstOf(es, sample.bytes);
    assert es[i] in Elems(es);
    v :| Offers(c, es[i], x, v);
    assert OfferedAt(c, seen, es, x, v, i);
  }

  lemma OfferedByMember(c: Config, seen: set<Bytes>, es: seq<Envelope>, x: Cell, v: nat) returns (e: Envelope)
    requires Offered(c, seen, es, x, v)
    ensures e in Elems(es) && e.bytes !in seen && Offers(c, e, x, v)
  {
    var i: nat :| OfferedAt(c, seen, es, x, v, i);
    e := es[i];
  }

  /** The cells after two deliveries of the same envelopes. */
  lemma SameCells(c: Config, s: Participant, es1: seq<Envelope>, es2: seq<Envelope>, r1: Participant, r2: Participant, x: Cell)
    requires Elems(es1) == Elems(es2) && OneOfEach(c, s, Elems(es1)) && AllSteady(c, s, Elems(es1))
    requires CellsOk(c, s, es1, r1) && CellsOk(c, s, es2, r2)
    ensures Filled(r1, x) ==> Filled(r2, x) && Content(r1, x) == Content(r2, x)
  {
    if Filled(r1, x) && !Filled(s, x) {
      var e := OfferedByMember(c, s.seen, es1, x, Content(r1, x));
      assert OffersFor(c, e, x);
      assert Steady(c, s.seen, Elems(es1), x);
      var sample :| Carries(c, s.seen, Elems(es1), x, sample);
      var v := CarriedIsOffered(c, s.seen, es2, x, sample);
      var f := OfferedByMember(c, s.seen, es2, x, Content(r2, x));
    }
  }

  ghost predicate CellsAgree(a: Participant, b: Participant) {
    && (forall x: Cell :: Filled(a, x) ==> Filled(b, x) && Content(a, x) == Content(b, x))
    && (forall x: Cell :: Filled(b, x) ==> Filled(a, x))
  }

  lemma CellsToMessages(a: Participant, b: Participant)
    requires CellsAgree(a, b)
    ensures a.pubs == b.pubs && a.privs == b.privs
  {
    forall d: Key ensures d in a.pubs <==> d in b.pubs {
      assert Filled(a, PubOf(d)) <==> Filled(b, PubOf(d));
    }
    forall d: Key ensures d in a.privs <==> d in b.privs {
      assert Filled(a, PrivOf(d)) <==> Filled(b, PrivOf(d));
    }
    forall d <- a.pubs ensures a.pubs[d] == b.pubs[d] {
      assert Content(a, PubOf(d)) == Content(b, PubOf(d));
    }
    forall d <- a.privs ensures a.privs[d] == b.privs[d] {
      assert Content(a, PrivOf(d)) == Content(b, PrivOf(d));
    }
  }

  lemma CellsToLogs(c: Config, a: Participant, b: Participant)
    requires LogsOk(c, a) && LogsOk(c, b) && CellsAgree(a, b)
    ensures a.logs == b.logs && a.signed == b.signed && a.ready == b.ready
  {
    forall d: Key ensures d in a.signed <==> d in b.signed {
      assert Filled(a, LogOf(d)) <==> Filled(b, LogOf(d));
    }
    forall p: Key ensures p in a.ready <==> p in b.ready {
      assert Filled(a, ReadyOf(p)) <==> Filled(b, ReadyOf(p));
    }
    forall d <- a.signed ensures a.signed[d] == b.signed[d] {
      assert Content(a, LogOf(d)) == Content(b, LogOf(d));
    }
    forall d <- a.logs ensures d in b.logs && a.logs[d] == b.logs[d] {
      assert c.check(a.signed[d]) == Some((d, a.logs[d]));
    }
  }

  /** Any two deliveries of the same envelopes, in any order and with repeats, end with
      the same public messages, private messages, logs, acknowledgements and ready
      players, and with at most one acknowledgement queued per dealer. */
  lemma Confluence(c: Config, s: Participant, es1: seq<Envelope>, es2: seq<Envelope>)
    requires ConfigOk(c) && ParticipantOk(c, s) && OneAckEach(s)
    requires Elems(es1) == Elems(es2) && OneOfEach(c, s, Elems(es1)) && AllSteady(c, s, Elems(es1))
    ensures SameView(Deliver(c, s, es1), Deliver(c, s, es2))
    ensures OneAckEach(Deliver(c, s, es1))
  {
    var r1, r2 := Deliver(c, s, es1), Deliver(c, s, es2);
    DeliverCells(c, s, es1);
    DeliverCells(c, s, es2);
    forall x: Cell ensures Filled(r1, x) ==> Filled(r2, x) && Content(r1, x) == Content(r2, x) {
      SameCells(c, s, es1, es2, r1, r2, x);
    }
    forall x: Cell ensures Filled(r2, x) ==> Filled(r1, x) {
      SameCells(c, s, es2, es1, r2, r1, x);
    }
    DeliverKeeps(c, s, es1);
    DeliverKeeps(c, s, es2);
    CellsToMessages(r1, r2);
    CellsToLogs(c, r1, r2);
    DeliverAcks(c, s, es1);
    DeliverAcks(c, s, es2);
  }

  // ----- the exact condition -----

  /** All deliveries of the same envelopes end alike. */
  ghost predicate OrdersAgree(c: Config, s: Participant, es: set<Envelope>) {
    forall es1: seq<Envelope>, es2: seq<Envelope> ::
      Elems(es1) == es && Elems(es2) == es ==> SameView(Deliver(c, s, es1), Deliver(c, s, es2))
  }

  /** The envelopes that do not offer the place. */
  ghost function Without(c: Config, es: seq<Envelope>, x: Cell): (r: seq<Envelope>)
    ensures forall e :: e in r <==> e in es && !OffersFor(c, e, x)
  {
    if es == [] then []
    else
      var init, last := Without(c, es[..|es| - 1], x), es[|es| - 1];
      if OffersFor(c, last, x) then init else init + [last]
  }

  /** If no bytes are safe from being sent first by someone who does not offer the place,
      there is an order in which it is not offered. */
  lemma UnsteadyIsBlocked(c: Config, seen: set<Bytes>, es: seq<Envelope>, x: Cell, v: nat)
    requires forall e :: !Carries(c, seen, Elems(es), x, e)
    ensures !Offered(c, seen, Without(c, es, x) + es, x, v)
  {
    var others := Without(c, es, x);
    var order := others + es;
    forall i: nat ensures !OfferedAt(c, seen, order, x, v, i) {
      if i < |order| && order[i].bytes !in seen && Offers(c, order[i], x, v) {
        BlockedAt(c, seen, es, x, i);
      }
    }
  }

  lemma BlockedAt(c: Config, seen: set<Bytes>, es: seq<Envelope>, x: Cell, i: nat)
    requires forall e :: !Carries(c, seen, Elems(es), x, e)
    requires var order := Without(c, es, x) + es;
      i < |order| && order[i].bytes !in seen && OffersFor(c, order[i], x)
    ensures !IsFirst(Without(c, es, x) + es, i)
  {
    var others := Without(c, es, x);
    var order := others + es;
    var e := order[i];
    assert i < |others| ==> e in others;
    assert i >= |others| && e in es;
    assert !Carries(c, seen, Elems(es), x, e);
    var f :| f in Elems(es) && f.bytes == e.bytes && !OffersFor(c, f, x);
    assert f in others;
    assert order[..i] == others + es[..i - |others|];
    assert f in order[..i];
  }

  lemma FirstEnvelopeOffers(c: Config, seen: set<Bytes>, es: seq<Envelope>, e: Envelope, x: Cell, v: nat)
    requires e.bytes !in seen && Offers(c, e, x, v)
    ensures Offered(c, seen, [e] + es, x, v)
  {
    assert ([e] + es)[..0] == [];
    assert OfferedAt(c, seen, [e] + es, x, v, 0);
  }

  lemma SameViewSameCells(a: Participant, b: Participant, x: Cell)
    ensures SameView(a, b) ==> (Filled(a, x) <==> Filled(b, x))
  {
  }

  lemma OrdersDisagree(c: Config, s: Participant, first: seq<Envelope>, last: seq<Envelope>, es: set<Envelope>, x: Cell)
    requires Elems(first) == es && Elems(last) == es
    requires Filled(Deliver(c, s, first), x) && !Filled(Deliver(c, s, last), x)
    ensures !OrdersAgree(c, s, es)
  {
    SameViewSameCells(Deliver(c, s, first), Deliver(c, s, last), x);
  }

  lemma UnsteadyDisagrees(c: Config, s: Participant, es: seq<Envelope>, x: Cell)
    requires ConfigOk(c) && ParticipantOk(c, s) && !Filled(s, x) && !Steady(c, s.seen, Elems(es), x)
    ensures !OrdersAgree(c, s, Elems(es))
  {
    var e :| e in Elems(es) && e.bytes !in s.seen && OffersFor(c, e, x);
    var v: nat :| Offers(c, e, x, v);
    var first, last := [e] + es, Without(c, es, x) + es;
    assert Elems(first) == Elems(es) && Elems(last) == Elems(es);
    assert OfferedSome(c, s.seen, first, x) by { FirstEnvelopeOffers(c, s.seen, es, e, x, v); }
    assert !OfferedSome(c, s.seen, last, x) by {
      forall w: nat ensures !Offered(c, s.seen, last, x, w) {
        UnsteadyIsBlocked(c, s.seen, es, x, w);
      }
    }
    FilledIffOffered(c, s, first, x);
    FilledIffOffered(c, s, last, x);
    OrdersDisagree(c, s, first, last, Elems(es), x);
  }

  /** With at most one message of each sort per dealer, all orders of the same envelopes
      end alike, if and only if for every place that is not filled yet either nobody with
      new bytes offers it, or some new bytes offer it whoever sends them. */
  lemma ConfluenceIff(c: Config, s: Participant, es: seq<Envelope>)
    requires ConfigOk(c) && ParticipantOk(c, s) && OneAckEach(s) && OneOfEach(c, s, Elems(es))
    ensures OrdersAgree(c, s, Elems(es)) <==> AllSteady(c, s, Elems(es))
  {
    if AllSteady(c, s, Elems(es)) {
      forall es1: seq<Envelope>, es2: seq<Envelope> | Elems(es1) == Elems(es) && Elems(es2) == Elems(es)
        ensures SameView(Deliver(c, s, es1), Deliver(c, s, es2))
      {
        Confluence(c, s, es1, es2);
      }
    } else {
      var x :| !Filled(s, x) && !Steady(c, s.seen, Elems(es), x);
      UnsteadyDisagrees(c, s, es, x);
    }
  }

  /** Bytes always come from the same sender, except that any participant may send a log
      request or relay a signed log. */
  ghost predicate FixedSenders(c: Config, es: set<Envelope>) {
    && (forall e <- es :: AnyoneMaySend(c, e.bytes) ==> e.from in c.participants)
    && forall a <- es, b <- es :: a.bytes == b.bytes && !AnyoneMaySend(c, a.bytes) ==> a == b
  }

  predicate AnyoneMaySend(c: Config, bytes: Bytes) {
    c.decode(bytes).Some? && (c.decode(bytes).value.kind.RequestLogs? || c.decode(bytes).value.kind.SignedDealerLog?)
  }

  /** With fixed senders every place is steady. */
  lemma FixedSendersAreSteady(c: Config, s: Participant, es: set<Envelope>)
    requires FixedSenders(c, es)
    ensures AllSteady(c, s, es)
  {
    forall x: Cell | !Filled(s, x) ensures Steady(c, s.seen, es, x) {
      if e :| e in es && e.bytes !in s.seen && OffersFor(c, e, x) {
        forall f <- es | f.bytes == e.bytes ensures OffersFor(c, f, x) {
          RelayedOffers(c, es, e, f, x);
        }
        assert Carries(c, s.seen, es, x, e);
      }
    }
  }

  lemma RelayedOffers(c: Config, es: set<Envelope>, e: Envelope, f: Envelope, x: Cell)
    requires FixedSenders(c, es) && e in es && f in es && f.bytes == e.bytes && OffersFor(c, e, x)
    ensures OffersFor(c, f, x)
  {
    var v: nat :| Offers(c, e, x, v);
    assert f == e || Offers(c, f, x, v);
  }

  /** An unsteady place: the same bytes from another participant first make the genuine
      ones look like a repeat. */
  lemma WrongSenderBlocks(c: Config, s: Participant, dealer: Key, other: Key, b: Bytes, pub: PubMsg)
    requires ConfigOk(c) && ParticipantOk(c, s)
    requires dealer in c.participants && other in c.participants && other != dealer
    requires b !in s.seen && dealer !in s.pubs && c.decode(b) == Some(Message(Some(c.session), DealerPublic(dealer, pub)))
    ensures dealer in Deliver(c, s, [Envelope(dealer, b), Envelope(other, b)]).pubs
    ensures dealer !in Deliver(c, s, [Envelope(other, b), Envelope(dealer, b)]).pubs
  {
    var right, wrong := Envelope(dealer, b), Envelope(other, b);
    var seen := s.(seen := s.seen + {b});
    RoomLeft(c, s.pubs.Keys, dealer);
    assert [right, wrong][..1] == [right] && [wrong, right][..1] == [wrong];
    assert [right][..0] == [] && [wrong][..0] == [];
    HandleSeen(c, seen, dealer, DealerPublic(dealer, pub));
    assert Deliver(c, s, [wrong]) == seen;
    assert Deliver(c, s, [right]) == Handle(c, seen, dealer, DealerPublic(dealer, pub)).0;
  }
}
