/** The wire format of ceremony messages: a session-bound and a legacy format, seven tags,
    and inner codecs of the cryptography as parameters. */
module MessageCodec {
  import opened Prelude
  import opened Codec
  import opened Dkg

  const SESSION_MARK: Byte := 0xFF
  const VERSION: Byte := 2
  const SESSION_SIZE: nat := 32
  const COUNT_SIZE: nat := 4
  const COUNT_LIMIT: nat := 0x1_0000_0000

  /** The codecs of keys, dealer messages, acknowledgements and signed logs; `ok` tells
      which values they are made for. */
  datatype Inner = Inner(
    key: Pair<Key>, pub: Pair<PubMsg>, share: Pair<PrivMsg>, ack: Pair<Ack>, log: Pair<SignedLog>,
    ok: nat -> bool)

  ghost predicate InnerOk(i: Inner) {
    && SelfDelimiting(i.key, i.ok) && SelfDelimiting(i.pub, i.ok) && SelfDelimiting(i.share, i.ok)
    && SelfDelimiting(i.ack, i.ok) && SelfDelimiting(i.log, i.ok)
  }

  // ----- printing -----

  function PrintLogs(i: Inner, logs: seq<(Key, SignedLog)>): (r: Buffer) {
    if logs == [] then []
    else i.key.write(logs[0].0) + i.log.write(logs[0].1) + PrintLogs(i, logs[1..])
  }

  function Tag(kind: Kind): (r: Byte)
    ensures r < SESSION_MARK
  {
    match kind
    case DealerPublic(_, _) => 0
    case DealerPrivate(_, _) => 1
    case PlayerAck(_, _, _) => 2
    case SignedDealerLog(_) => 3
    case RequestLogs => 4
    case AllLogs(_) => 5
    case Ready(_) => 6
  }

  /** The count of logs is cut to 32 bits. */
  function PrintBody(i: Inner, kind: Kind): (r: Buffer) {
    match kind
    case DealerPublic(dealer, pub) => i.key.write(dealer) + i.pub.write(pub)
    case DealerPrivate(dealer, share) => i.key.write(dealer) + i.share.write(share)
    case PlayerAck(player, dealer, ack) => i.key.write(player) + i.key.write(dealer) + i.ack.write(ack)
    case SignedDealerLog(log) => i.log.write(log)
    case RequestLogs => []
    case AllLogs(logs) => ToBytes(|logs| % COUNT_LIMIT, COUNT_SIZE) + PrintLogs(i, logs)
    case Ready(player) => i.key.write(player)
  }

  function PrintHeader(session: Option<Session>): (r: Buffer) {
    match session
    case None => []
    case Some(id) => [SESSION_MARK, VERSION] + ToBytes(id, SESSION_SIZE)
  }

  function Print(i: Inner, m: Message): (r: Buffer) {
    PrintHeader(m.session) + [Tag(m.kind)] + PrintBody(i, m.kind)
  }

  // ----- parsing -----

  function ParseLogs(i: Inner, b: Buffer, n: nat): (r: Read<seq<(Key, SignedLog)>>)
    ensures r.Ok? ==> |r.value.0| == n
    decreases n
  {
    if n == 0 then Ok(([], b))
    else
      match i.key.read(b)
      case Err(e) => Err(e)
      case Ok((key, b1)) =>
        match i.log.read(b1)
        case Err(e) => Err(e)
        case Ok((log, b2)) =>
          match ParseLogs(i, b2, n - 1)
          case Err(e) => Err(e)
          case Ok((logs, b3)) => Ok(([(key, log)] + logs, b3))
  }

  function ParsePublic(i: Inner, b: Buffer): (r: Read<Kind>) {
    match i.key.read(b)
    case Err(e) => Err(e)
    case Ok((dealer, b1)) =>
      match i.pub.read(b1)
      case Err(e) => Err(e)
      case Ok((pub, b2)) => Ok((DealerPublic(dealer, pub), b2))
  }

  function ParsePrivate(i: Inner, b: Buffer): (r: Read<Kind>) {
    match i.key.read(b)
    case Err(e) => Err(e)
    case Ok((dealer, b1)) =>
      match i.share.read(b1)
      case Err(e) => Err(e)
      case Ok((share, b2)) => Ok((DealerPrivate(dealer, share), b2))
  }

  function ParseAck(i: Inner, b: Buffer): (r: Read<Kind>) {
    match i.key.read(b)
    case Err(e) => Err(e)
    case Ok((player, b1)) =>
      match i.key.read(b1)
      case Err(e) => Err(e)
      case Ok((dealer, b2)) =>
        match i.ack.read(b2)
        case Err(e) => Err(e)
        case Ok((ack, b3)) => Ok((PlayerAck(player, dealer, ack), b3))
  }

  function ParseAllLogs(i: Inner, b: Buffer): (r: Read<Kind>) {
    match ReadFixed(b, COUNT_SIZE)
    case Err(e) => Err(e)
    case Ok((count, b1)) =>
      match ParseLogs(i, b1, count)
      case Err(e) => Err(e)
      case Ok((logs, b2)) => Ok((AllLogs(logs), b2))
  }

  function ParseBody(i: Inner, tag: Byte, b: Buffer): (r: Read<Kind>) {
    if tag == 0 then ParsePublic(i, b)
    else if tag == 1 then ParsePrivate(i, b)
    else if tag == 2 then ParseAck(i, b)
    else if tag == 3 then
      match i.log.read(b)
      case Err(e) => Err(e)
      case Ok((log, b1)) => Ok((SignedDealerLog(log), b1))
    else if tag == 4 then Ok((RequestLogs, b))
    else if tag == 5 then ParseAllLogs(i, b)
    else if tag == 6 then
      match i.key.read(b)
      case Err(e) => Err(e)
      case Ok((player, b1)) => Ok((Ready(player), b1))
    else Err(InvalidEnum(tag as nat))
  }

  /** The session, if any, and the tag. */
  function ParseHeader(b: Buffer): (r: Read<(Option<Session>, Byte)>) {
    if b == [] then Err(EndOfBuffer)
    else if b[0] != SESSION_MARK then Ok(((None, b[0]), b[1..]))
    else if |b| < 2 then Err(EndOfBuffer)
    else if b[1] != VERSION then Err(InvalidEnum(b[1] as nat))
    else
      match ReadFixed(b[2..], SESSION_SIZE)
      case Err(e) => Err(e)
      case Ok((session, rest)) =>
        if rest == [] then Err(EndOfBuffer) else Ok(((Some(session), rest[0]), rest[1..]))
  }

  function Parse(i: Inner, b: Buffer, maxDegree: nat): (r: Read<Message>) {
    match ParseHeader(b)
    case Err(e) => Err(e)
    case Ok(((session, tag), rest)) =>
      if maxDegree == 0 then Err(InvalidLength(0))
      else
        match ParseBody(i, tag, rest)
        case Err(e) => Err(e)
        case Ok((kind, left)) => Ok((Message(session, kind), left))
  }

  // ----- the loops -----

  /** Print into a growing buffer, as the source does. */
  method WriteLogs(i: Inner, buf: Buffer, logs: seq<(Key, SignedLog)>) returns (out: Buffer)
    ensures out == buf + PrintLogs(i, logs)
  {
    out := buf;
    for k := 0 to |logs|
      invariant out + PrintLogs(i, logs[k..]) == buf + PrintLogs(i, logs)
    {
      assert logs[k..][1..] == logs[k + 1..];
      var entry := i.key.write(logs[k].0) + i.log.write(logs[k].1);
      assert out + (entry + PrintLogs(i, logs[k + 1..])) == out + entry + PrintLogs(i, logs[k + 1..]);
      out := out + i.key.write(logs[k].0);
      out := out + i.log.write(logs[k].1);
    }
  }

  method WriteMessage(i: Inner, m: Message) returns (buf: Buffer)
    ensures buf == Print(i, m)
  {
    buf := [];
    if m.session.Some? {
      buf := buf + [SESSION_MARK];
      buf := buf + [VERSION];
      buf := buf + ToBytes(m.session.value, SESSION_SIZE);
    }
    assert buf == PrintHeader(m.session);
    buf := buf + [Tag(m.kind)];
    match m.kind
    case AllLogs(logs) =>
      buf := buf + ToBytes(|logs| % COUNT_LIMIT, COUNT_SIZE);
      buf := WriteLogs(i, buf, logs);
    case DealerPublic(dealer, pub) =>
      buf := buf + i.key.write(dealer);
      buf := buf + i.pub.write(pub);
    case DealerPrivate(dealer, share) =>
      buf := buf + i.key.write(dealer);
      buf := buf + i.share.write(share);
    case PlayerAck(player, dealer, ack) =>
      buf := buf + i.key.write(player);
      buf := buf + i.key.write(dealer);
      buf := buf + i.ack.write(ack);
    case SignedDealerLog(log) =>
      buf := buf + i.log.write(log);
    case RequestLogs =>
    case Ready(player) =>
      buf := buf + i.key.write(player);
  }

  method ReadLogs(i: Inner, buf: Buffer, count: nat) returns (r: Read<seq<(Key, SignedLog)>>)
    ensures r == ParseLogs(i, buf, count)
  {
    var reader, logs: seq<(Key, SignedLog)> := buf, [];
    PrependNone(ParseLogs(i, buf, count));
    for k := 0 to count
      invariant ParseLogs(i, buf, count) == Prepend(logs, ParseLogs(i, reader, count - k))
    {
      var key := i.key.read(reader);
      if key.Err? {
        return Err(key.error);
      }
      var log := i.log.read(key.value.1);
      if log.Err? {
        return Err(log.error);
      }
      PrependMore(logs, (key.value.0, log.value.0), ParseLogs(i, log.value.1, count - k - 1));
      logs := logs + [(key.value.0, log.value.0)];
      reader := log.value.1;
    }
    assert logs + [] == logs;
    r := Ok((logs, reader));
  }

  function Prepend<T>(head: seq<T>, r: Read<seq<T>>): (q: Read<seq<T>>) {
    match r
    case Err(e) => Err(e)
    case Ok((tail, b)) => Ok((head + tail, b))
  }

  lemma PrependNone<T>(r: Read<seq<T>>)
    ensures Prepend([], r) == r
  {
    if r.Ok? {
      assert [] + r.value.0 == r.value.0;
    }
  }

  lemma PrependMore<T>(head: seq<T>, x: T, r: Read<seq<T>>)
    ensures Prepend(head + [x], r) == Prepend(head, Prepend([x], r))
  {
    if r.Ok? {
      assert head + [x] + r.value.0 == head + ([x] + r.value.0);
    }
  }

  // ----- round trip -----

  ghost predicate LogsFor(i: Inner, logs: seq<(Key, SignedLog)>) {
    forall e <- logs :: i.ok(e.0) && i.ok(e.1)
  }

  /** All parts of the message are values of the inner codecs; the session is 32 bytes. */
  ghost predicate Printable(i: Inner, m: Message) {
    && (m.session.Some? ==> m.session.value < Pow256(SESSION_SIZE))
    && match m.kind
      case DealerPublic(dealer, pub) => i.ok(dealer) && i.ok(pub)
      case DealerPrivate(dealer, share) => i.ok(dealer) && i.ok(share)
      case PlayerAck(player, dealer, ack) => i.ok(player) && i.ok(dealer) && i.ok(ack)
      case SignedDealerLog(log) => i.ok(log)
      case RequestLogs => true
      case AllLogs(logs) => LogsFor(i, logs)
      case Ready(player) => i.ok(player)
  }

  lemma {:induction false} LogsRoundTrip(i: Inner, logs: seq<(Key, SignedLog)>, rest: Buffer)
    requires InnerOk(i) && LogsFor(i, logs)
    ensures ParseLogs(i, PrintLogs(i, logs) + rest, |logs|) == Ok((logs, rest))
    decreases |logs|
  {
    if logs == [] {
      assert PrintLogs(i, logs) + rest == rest;
    } else {
      var after := PrintLogs(i, logs[1..]) + rest;
      LogsRoundTrip(i, logs[1..], rest);
      assert PrintLogs(i, logs) + rest == i.key.write(logs[0].0) + (i.log.write(logs[0].1) + after);
      ThenRest(i.key, i.ok, logs[0].0, i.log.write(logs[0].1) + after);
      ThenRest(i.log, i.ok, logs[0].1, after);
      assert [logs[0]] + logs[1..] == logs;
    }
  }

  lemma HeaderRoundTrip(session: Option<Session>, tag: Byte, rest: Buffer)
    requires session.Some? ==> session.value < Pow256(SESSION_SIZE)
    requires tag != SESSION_MARK
    ensures ParseHeader(PrintHeader(session) + [tag] + rest) == Ok(((session, tag), rest))
  {
    var b := PrintHeader(session) + [tag] + rest;
    if session.Some? {
      var id, more := ToBytes(session.value, SESSION_SIZE), [tag] + rest;
      FixedThenRest(session.value, SESSION_SIZE, more);
      SessionHeader(b, session.value, id, more);
      assert more[1..] == rest;
    } else {
      assert b[1..] == rest;
    }
  }

  lemma SessionHeader(b: Buffer, session: Session, id: Buffer, more: Buffer)
    requires more != [] && b == [SESSION_MARK, VERSION] + id + [more[0]] + more[1..]
    requires ReadFixed(id + more, SESSION_SIZE) == Ok((session, more))
    ensures ParseHeader(b) == Ok(((Some(session), more[0]), more[1..]))
  {
    assert b[2..] == id + more;
  }

  lemma PublicRoundTrip(i: Inner, dealer: Key, pub: PubMsg, rest: Buffer)
    requires InnerOk(i) && i.ok(dealer) && i.ok(pub)
    ensures ParsePublic(i, PrintBody(i, DealerPublic(dealer, pub)) + rest) == Ok((DealerPublic(dealer, pub), rest))
  {
    assert PrintBody(i, DealerPublic(dealer, pub)) + rest == i.key.write(dealer) + (i.pub.write(pub) + rest);
    ThenRest(i.key, i.ok, dealer, i.pub.write(pub) + rest);
    ThenRest(i.pub, i.ok, pub, rest);
  }

  lemma PrivateRoundTrip(i: Inner, dealer: Key, share: PrivMsg, rest: Buffer)
    requires InnerOk(i) && i.ok(dealer) && i.ok(share)
    ensures ParsePrivate(i, PrintBody(i, DealerPrivate(dealer, share)) + rest) == Ok((DealerPrivate(dealer, share), rest))
  {
    assert PrintBody(i, DealerPrivate(dealer, share)) + rest == i.key.write(dealer) + (i.share.write(share) + rest);
    ThenRest(i.key, i.ok, dealer, i.share.write(share) + rest);
    ThenRest(i.share, i.ok, share, rest);
  }

  lemma AckRoundTrip(i: Inner, player: Key, dealer: Key, ack: Ack, rest: Buffer)
    requires InnerOk(i) && i.ok(player) && i.ok(dealer) && i.ok(ack)
    ensures ParseAck(i, PrintBody(i, PlayerAck(player, dealer, ack)) + rest) == Ok((PlayerAck(player, dealer, ack), rest))
  {
    assert PrintBody(i, PlayerAck(player, dealer, ack)) + rest
      == i.key.write(player) + (i.key.write(dealer) + (i.ack.write(ack) + rest));
    ThenRest(i.key, i.ok, player, i.key.write(dealer) + (i.ack.write(ack) + rest));
    ThenRest(i.key, i.ok, dealer, i.ack.write(ack) + rest);
    ThenRest(i.ack, i.ok, ack, rest);
  }

  lemma CountFitsWidth(n: nat)
    ensures n % COUNT_LIMIT < Pow256(COUNT_SIZE)
  {
    assert Pow256(4) == 256 * Pow256(3) == 256 * (256 * Pow256(2)) == 256 * (256 * (256 * Pow256(1)));
  }

  /** The count that is read back is the one that was printed. */
  lemma AllLogsCount(i: Inner, logs: seq<(Key, SignedLog)>, rest: Buffer)
    ensures ReadFixed(PrintBody(i, AllLogs(logs)) + rest, COUNT_SIZE)
      == Ok((|logs| % COUNT_LIMIT, PrintLogs(i, logs) + rest))
  {
    var n := |logs| % COUNT_LIMIT;
    CountFitsWidth(|logs|);
    assert PrintBody(i, AllLogs(logs)) + rest == ToBytes(n, COUNT_SIZE) + (PrintLogs(i, logs) + rest);
    FixedThenRest(n, COUNT_SIZE, PrintLogs(i, logs) + rest);
  }

  /** A bundle reads back exactly when its length fits the 32-bit count. */
  lemma AllLogsRoundTripIff(i: Inner, logs: seq<(Key, SignedLog)>, rest: Buffer)
    requires InnerOk(i) && LogsFor(i, logs)
    ensures ParseAllLogs(i, PrintBody(i, AllLogs(logs)) + rest) == Ok((AllLogs(logs), rest)) <==> |logs| < COUNT_LIMIT
  {
    var n := |logs| % COUNT_LIMIT;
    AllLogsCount(i, logs, rest);
    if |logs| < COUNT_LIMIT {
      assert n == |logs|;
      LogsRoundTrip(i, logs, rest);
    } else {
      assert n != |logs|;
    }
  }

  predicate CountFits(m: Message) {
    m.kind.AllLogs? ==> |m.kind.logs| < COUNT_LIMIT
  }

  lemma BodyRoundTripIff(i: Inner, m: Message, rest: Buffer)
    requires InnerOk(i) && Printable(i, m)
    ensures ParseBody(i, Tag(m.kind), PrintBody(i, m.kind) + rest) == Ok((m.kind, rest)) <==> CountFits(m)
  {
    match m.kind
    case DealerPublic(dealer, pub) => PublicRoundTrip(i, dealer, pub, rest);
    case DealerPrivate(dealer, share) => PrivateRoundTrip(i, dealer, share, rest);
    case PlayerAck(player, dealer, ack) => AckRoundTrip(i, player, dealer, ack, rest);
    case SignedDealerLog(log) => ThenRest(i.log, i.ok, log, rest);
    case RequestLogs => assert [] + rest == rest;
    case AllLogs(logs) => AllLogsRoundTripIff(i, logs, rest);
    case Ready(player) => ThenRest(i.key, i.ok, player, rest);
  }

  /** Parsing a printed message followed by anything returns the message and exactly what
      follows, for all seven kinds and both formats, exactly when the log count fits. */
  lemma MessageRoundTripIff(i: Inner, m: Message, rest: Buffer, maxDegree: nat)
    requires InnerOk(i) && Printable(i, m) && maxDegree > 0
    ensures Parse(i, Print(i, m) + rest, maxDegree) == Ok((m, rest)) <==> CountFits(m)
  {
    var after := PrintBody(i, m.kind) + rest;
    assert Print(i, m) + rest == PrintHeader(m.session) + [Tag(m.kind)] + after;
    HeaderRoundTrip(m.session, Tag(m.kind), after);
    BodyRoundTripIff(i, m, rest);
  }

  /** No printed message is the beginning of another one: the two formats are never
      confused and printing loses nothing. */
  lemma PrintIsInjective(i: Inner, m1: Message, m2: Message, rest1: Buffer, rest2: Buffer)
    requires InnerOk(i) && Printable(i, m1) && Printable(i, m2) && CountFits(m1) && CountFits(m2)
    requires Print(i, m1) + rest1 == Print(i, m2) + rest2
    ensures m1 == m2 && rest1 == rest2
  {
    MessageRoundTripIff(i, m1, rest1, 1);
    MessageRoundTripIff(i, m2, rest2, 1);
  }
}
