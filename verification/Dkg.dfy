/** One participant of the interactive key generation ceremony: what each message does to
    its maps, sets and outgoing queue. The cryptography is a set of functions. */
module Dkg {
  import opened Prelude

  type Key = nat
  type PubMsg = nat
  type PrivMsg = nat
  type Ack = nat
  type DealerLog = nat
  type SignedLog = nat
  type Session = nat
  type Bytes = nat

  datatype Kind =
    | DealerPublic(dealer: Key, pub: PubMsg)
    | DealerPrivate(dealer: Key, share: PrivMsg)
    | PlayerAck(player: Key, dealer: Key, ack: Ack)
    | SignedDealerLog(log: SignedLog)
    | RequestLogs
    | AllLogs(logs: seq<(Key, SignedLog)>)
    | Ready(player: Key)

  /** `session` is absent in the legacy format. */
  datatype Message = Message(session: Option<Session>, kind: Kind)

  /** `verify` turns a dealer's two messages into an acknowledgement, `accepts` says
      whether our dealer takes a player's acknowledgement, `check` opens a signed log to
      its dealer and contents, and `seal` signs our dealer's log over the
      acknowledgements it has. */
  datatype Config = Config(
    participants: seq<Key>,
    me: Key,
    session: Session,
    decode: Bytes -> Option<Message>,
    verify: (Key, PubMsg, PrivMsg) -> Option<Ack>,
    accepts: (Key, Ack) -> bool,
    check: SignedLog -> Option<(Key, DealerLog)>,
    seal: map<Key, Ack> -> SignedLog)

  /** Participants are distinct and include us; our seal opens to us. */
  ghost predicate ConfigOk(c: Config) {
    && Distinct(c.participants)
    && c.me in c.participants
    && forall acks :: c.check(c.seal(acks)).Some? ==> c.check(c.seal(acks)).value.0 == c.me
  }

  datatype DkgError =
    | InvalidMessage
    | SessionMismatch
    | UnknownSender
    | SenderMismatch
    | TooManyDealers
    | DuplicateDealer
    | InvalidDealerLog
    | UnauthorizedSender
    | CeremonyFailed

  datatype Outgoing = Outgoing(target: Option<Key>, kind: Kind)

  /** `dealer` holds the acknowledgements our dealer has accepted until it is finalized. */
  datatype Participant = Participant(
    seen: set<Bytes>,
    outgoing: seq<Outgoing>,
    pubs: map<Key, PubMsg>,
    privs: map<Key, PrivMsg>,
    logs: map<Key, DealerLog>,
    signed: map<Key, SignedLog>,
    dealer: Option<map<Key, Ack>>,
    acksSent: set<Key>,
    ready: set<Key>,
    sentReady: bool)

  const FRESH := Participant({}, [], map[], map[], map[], map[], None, {}, {}, false)

  // ----- what the handlers do -----

  predicate HasBoth(s: Participant, dealer: Key) {
    dealer in s.pubs && dealer in s.privs
  }

  /** Once both messages of a dealer are there, acknowledge them if they verify. */
  function Processed(c: Config, s: Participant, dealer: Key): (r: Participant) {
    if !HasBoth(s, dealer) then s
    else
      match c.verify(dealer, s.pubs[dealer], s.privs[dealer])
      case None => s
      case Some(ack) =>
        s.(outgoing := s.outgoing + [Outgoing(Some(dealer), PlayerAck(c.me, dealer, ack))],
           acksSent := s.acksSent + {dealer})
  }

  function HandlePublic(c: Config, s: Participant, from: Key, dealer: Key, pub: PubMsg): (r: (Participant, Option<DkgError>)) {
    if from != dealer then (s, Some(SenderMismatch))
    else if |s.pubs| >= |c.participants| then (s, Some(TooManyDealers))
    else if dealer in s.pubs then (s, Some(DuplicateDealer))
    else (Processed(c, s.(pubs := s.pubs[dealer := pub]), dealer), None)
  }

  function HandlePrivate(c: Config, s: Participant, from: Key, dealer: Key, share: PrivMsg): (r: (Participant, Option<DkgError>)) {
    if from != dealer then (s, Some(SenderMismatch))
    else if |s.privs| >= |c.participants| then (s, Some(TooManyDealers))
    else if dealer in s.privs then (s, Some(DuplicateDealer))
    else (Processed(c, s.(privs := s.privs[dealer := share]), dealer), None)
  }

  function HandleAck(c: Config, s: Participant, from: Key, player: Key, dealer: Key, ack: Ack): (r: (Participant, Option<DkgError>)) {
    if from != player then (s, Some(SenderMismatch))
    else if s.dealer.Some? && dealer == c.me && c.accepts(player, ack) then
      (s.(dealer := Some(s.dealer.value[player := ack])), None)
    else (s, None)
  }

  function AddLog(s: Participant, dealer: Key, log: DealerLog, signed: SignedLog): (r: Participant) {
    s.(logs := s.logs[dealer := log], signed := s.signed[dealer := signed])
  }

  function HandleLog(c: Config, s: Participant, log: SignedLog): (r: (Participant, Option<DkgError>)) {
    match c.check(log)
    case None => (s, Some(InvalidDealerLog))
    case Some((dealer, plain)) =>
      if dealer !in c.participants then (s, Some(UnknownSender))
      else if |s.logs| >= |c.participants| then (s, Some(TooManyDealers))
      else if dealer in s.logs then (s, Some(DuplicateDealer))
      else (AddLog(s, dealer, plain, log), None)
  }

  /** A whole bundle of logs: skip what is invalid or known, stop when there are enough. */
  function AddLogs(c: Config, s: Participant, logs: seq<(Key, SignedLog)>): (r: Participant)
    decreases |logs|
  {
    if logs == [] then s
    else
      match c.check(logs[0].1)
      case None => AddLogs(c, s, logs[1..])
      case Some((dealer, plain)) =>
        if dealer !in c.participants then AddLogs(c, s, logs[1..])
        else if |s.logs| >= |c.participants| then s
        else if dealer in s.logs then AddLogs(c, s, logs[1..])
        else AddLogs(c, AddLog(s, dealer, plain, logs[0].1), logs[1..])
  }

  /** The signed logs in key order. */
  function LogBundle(signed: map<Key, SignedLog>): (r: seq<(Key, SignedLog)>) {
    var keys := SortedKeys(signed.Keys);
    assert forall i :: 0 <= i < |keys| ==> keys[i] in Elems(keys);
    seq(|keys|, i requires 0 <= i < |keys| => (keys[i], signed[keys[i]]))
  }

  function Handle(c: Config, s: Participant, from: Key, kind: Kind): (r: (Participant, Option<DkgError>)) {
    if from !in c.participants then (s, Some(UnknownSender))
    else
      match kind
      case DealerPublic(dealer, pub) => HandlePublic(c, s, from, dealer, pub)
      case DealerPrivate(dealer, share) => HandlePrivate(c, s, from, dealer, share)
      case PlayerAck(player, dealer, ack) => HandleAck(c, s, from, player, dealer, ack)
      case SignedDealerLog(log) => HandleLog(c, s, log)
      case RequestLogs => (s.(outgoing := s.outgoing + [Outgoing(Some(from), AllLogs(LogBundle(s.signed)))]), None)
      case AllLogs(logs) =>
        if from != c.participants[0] then (s, Some(UnauthorizedSender)) else (AddLogs(c, s, logs), None)
      case Ready(player) =>
        if from != player then (s, Some(SenderMismatch)) else (s.(ready := s.ready + {player}), None)
  }

  /** Drop repeats, undecodable bytes and other sessions; remember the rest, then handle
      them. */
  function HandleBytes(c: Config, s: Participant, from: Key, bytes: Bytes): (r: (Participant, Option<DkgError>)) {
    if bytes in s.seen then (s, None)
    else
      match c.decode(bytes)
      case None => (s, Some(InvalidMessage))
      case Some(m) =>
        if m.session.Some? && m.session.value != c.session then (s, Some(SessionMismatch))
        else Handle(c, s.(seen := s.seen + {bytes}), from, m.kind)
  }

  /** Queue our public message and the shares of the others, and process our own. */
  function StartedDealer(c: Config, s: Participant, pub: PubMsg, shares: seq<(Key, PrivMsg)>): (r: Participant) {
    var own := OwnShares(c, s.privs, shares);
    Processed(c, s.(
      outgoing := s.outgoing + [Outgoing(None, DealerPublic(c.me, pub))] + ShareMessages(c, shares),
      privs := own, pubs := s.pubs[c.me := pub], dealer := Some(map[])), c.me)
  }

  function OwnShares(c: Config, privs: map<Key, PrivMsg>, shares: seq<(Key, PrivMsg)>): (r: map<Key, PrivMsg>) {
    if shares == [] then privs
    else
      var rest, last := OwnShares(c, privs, shares[..|shares| - 1]), shares[|shares| - 1];
      if last.0 == c.me then rest[c.me := last.1] else rest
  }

  function ShareMessages(c: Config, shares: seq<(Key, PrivMsg)>): (r: seq<Outgoing>) {
    if shares == [] then []
    else
      var rest, last := ShareMessages(c, shares[..|shares| - 1]), shares[|shares| - 1];
      if last.0 == c.me then rest else rest + [Outgoing(Some(last.0), DealerPrivate(c.me, last.1))]
  }

  /** Seal our dealer's log, keep it and broadcast it. */
  function FinalizedDealer(c: Config, s: Participant): (r: (Participant, Option<DkgError>)) {
    if s.dealer.None? then (s, None)
    else
      var log := c.seal(s.dealer.value);
      match c.check(log)
      case None => (s.(dealer := None), Some(CeremonyFailed))
      case Some((dealer, plain)) =>
        (AddLog(s, dealer, plain, log).(dealer := None,
           outgoing := s.outgoing + [Outgoing(None, SignedDealerLog(log))]), None)
  }

  function BroadcastReady(c: Config, s: Participant): (r: Participant) {
    if s.sentReady then s
    else
      s.(outgoing := s.outgoing + [Outgoing(None, Ready(c.me))], ready := s.ready + {c.me}, sentReady := true)
  }

  /** The guard of the collecting phase: both messages of, and an acknowledgement for,
      every participant. */
  predicate CollectedAll(c: Config, s: Participant) {
    |s.pubs.Keys * s.privs.Keys| >= |c.participants| && |s.acksSent| >= |c.participants|
  }

  predicate AllReady(c: Config, s: Participant) {
    |s.ready| >= |c.participants|
  }

  predicate CanFinalize(c: Config, s: Participant) {
    |s.logs| >= |c.participants|
  }

  // ----- the participant object -----

  class DkgParticipant {
    const c: Config
    var seen: set<Bytes>
    var outgoing: seq<Outgoing>
    var pubs: map<Key, PubMsg>
    var privs: map<Key, PrivMsg>
    var logs: map<Key, DealerLog>
    var signed: map<Key, SignedLog>
    var dealer: Option<map<Key, Ack>>
    var acksSent: set<Key>
    var ready: set<Key>
    var sentReady: bool

    ghost function Model(): (r: Participant)
      reads this
    {
      Participant(seen, outgoing, pubs, privs, logs, signed, dealer, acksSent, ready, sentReady)
    }

    constructor (config: Config)
      ensures c == config && Model() == FRESH
    {
      c := config;
      seen, outgoing, pubs, privs, logs, signed := {}, [], map[], map[], map[], map[];
      dealer, acksSent, ready, sentReady := None, {}, {}, false;
    }

    method TryProcessDealerMessages(from: Key)
      modifies this
      ensures Model() == Processed(c, old(Model()), from)
    {
      if from !in pubs || from !in privs {
        return;
      }
      var ack := c.verify(from, pubs[from], privs[from]);
      if ack.Some? {
        outgoing := outgoing + [Outgoing(Some(from), PlayerAck(c.me, from, ack.value))];
        acksSent := acksSent + {from};
      }
    }

    method ReceivePublic(from: Key, sender: Key, pub: PubMsg) returns (e: Option<DkgError>)
      modifies this
      ensures (Model(), e) == HandlePublic(c, old(Model()), from, sender, pub)
    {
      if from != sender {
        return Some(SenderMismatch);
      }
      if |pubs| >= |c.participants| {
        return Some(TooManyDealers);
      }
      if sender in pubs {
        return Some(DuplicateDealer);
      }
      pubs := pubs[sender := pub];
      TryProcessDealerMessages(sender);
      e := None;
    }

    method ReceivePrivate(from: Key, sender: Key, share: PrivMsg) returns (e: Option<DkgError>)
      modifies this
      ensures (Model(), e) == HandlePrivate(c, old(Model()), from, sender, share)
    {
      if from != sender {
        return Some(SenderMismatch);
      }
      if |privs| >= |c.participants| {
        return Some(TooManyDealers);
      }
      if sender in privs {
        return Some(DuplicateDealer);
      }
      privs := privs[sender := share];
      TryProcessDealerMessages(sender);
      e := None;
    }

    method ReceiveLog(log: SignedLog) returns (e: Option<DkgError>)
      modifies this
      ensures (Model(), e) == HandleLog(c, old(Model()), log)
    {
      var checked := c.check(log);
      if checked.None? {
        return Some(InvalidDealerLog);
      }
      var (owner, plain) := checked.value;
      if owner !in c.participants {
        return Some(UnknownSender);
      }
      if |logs| >= |c.participants| {
        return Some(TooManyDealers);
      }
      if owner in logs {
        return Some(DuplicateDealer);
      }
      logs := logs[owner := plain];
      signed := signed[owner := log];
      e := None;
    }

    method ReceiveLogs(bundle: seq<(Key, SignedLog)>)
      modifies this
      ensures Model() == AddLogs(c, old(Model()), bundle)
    {
      var i := 0;
      while i < |bundle|
        invariant i <= |bundle|
        invariant AddLogs(c, Model(), bundle[i..]) == AddLogs(c, old(Model()), bundle)
      {
        var log := bundle[i].1;
        assert bundle[i..][1..] == bundle[i + 1..];
        var checked := c.check(log);
        if checked.Some? && checked.value.0 in c.participants {
          var (owner, plain) := checked.value;
          if |logs| >= |c.participants| {
            return;
          }
          if owner !in logs {
            logs := logs[owner := plain];
            signed := signed[owner := log];
          }
        }
        i := i + 1;
      }
    }

    method HandleMessage(from: Key, kind: Kind) returns (e: Option<DkgError>)
      modifies this
      ensures (Model(), e) == Handle(c, old(Model()), from, kind)
    {
      if from !in c.participants {
        return Some(UnknownSender);
      }
      e := None;
      match kind
      case DealerPublic(sender, pub) =>
        e := ReceivePublic(from, sender, pub);
      case DealerPrivate(sender, share) =>
        e := ReceivePrivate(from, sender, share);
      case PlayerAck(player, target, ack) =>
        if from != player {
          return Some(SenderMismatch);
        }
        if dealer.Some? && target == c.me {
          if c.accepts(player, ack) {
            dealer := Some(dealer.value[player := ack]);
          }
        }
      case SignedDealerLog(log) =>
        e := ReceiveLog(log);
      case RequestLogs =>
        outgoing := outgoing + [Outgoing(Some(from), AllLogs(LogBundle(signed)))];
      case AllLogs(bundle) =>
        if from != c.participants[0] {
          return Some(UnauthorizedSender);
        }
        ReceiveLogs(bundle);
      case Ready(player) =>
        if from != player {
          return Some(SenderMismatch);
        }
        ready := ready + {player};
    }

    method HandleMessageBytes(from: Key, bytes: Bytes) returns (e: Option<DkgError>)
      modifies this
      ensures (Model(), e) == HandleBytes(c, old(Model()), from, bytes)
    {
      if bytes in seen {
        return None;
      }
      var decoded := c.decode(bytes);
      if decoded.None? {
        return Some(InvalidMessage);
      }
      var m := decoded.value;
      if m.session.Some? && m.session.value != c.session {
        return Some(SessionMismatch);
      }
      seen := seen + {bytes};
      e := HandleMessage(from, m.kind);
    }

    method StartDealer(pub: PubMsg, shares: seq<(Key, PrivMsg)>)
      modifies this
      ensures Model() == StartedDealer(c, old(Model()), pub, shares)
    {
      outgoing := outgoing + [Outgoing(None, DealerPublic(c.me, pub))];
      ghost var queued := outgoing;
      for i := 0 to |shares|
        invariant privs == OwnShares(c, old(privs), shares[..i])
        invariant outgoing == queued + ShareMessages(c, shares[..i])
        invariant Model() == old(Model()).(outgoing := outgoing, privs := privs)
      {
        assert shares[..i + 1][..i] == shares[..i];
        if shares[i].0 == c.me {
          privs := privs[c.me := shares[i].1];
        } else {
          outgoing := outgoing + [Outgoing(Some(shares[i].0), DealerPrivate(c.me, shares[i].1))];
        }
      }
      assert shares[..|shares|] == shares;
      pubs := pubs[c.me := pub];
      dealer := Some(map[]);
      TryProcessDealerMessages(c.me);
    }

    method FinalizeDealer() returns (e: Option<DkgError>)
      modifies this
      ensures (Model(), e) == FinalizedDealer(c, old(Model()))
    {
      if dealer.None? {
        return None;
      }
      var log := c.seal(dealer.value);
      dealer := None;
      var checked := c.check(log);
      if checked.None? {
        return Some(CeremonyFailed);
      }
      var (owner, plain) := checked.value;
      logs := logs[owner := plain];
      signed := signed[owner := log];
      outgoing := outgoing + [Outgoing(None, SignedDealerLog(log))];
      e := None;
    }

    method SignalReady()
      modifies this
      ensures Model() == BroadcastReady(c, old(Model()))
    {
      if sentReady {
        return;
      }
      outgoing := outgoing + [Outgoing(None, Ready(c.me))];
      ready := ready + {c.me};
      sentReady := true;
    }

    method TakeOutgoing() returns (taken: seq<Outgoing>)
      modifies this
      ensures taken == old(outgoing) && Model() == old(Model()).(outgoing := [])
    {
      taken := outgoing;
      outgoing := [];
    }
  }
}
