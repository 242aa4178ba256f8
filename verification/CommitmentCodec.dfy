/** The canonical encoding of state changes: ordered maps inside an ordered map, with
    limits on both counts when decoding. */
module CommitmentCodec {
  import opened Prelude
  import opened Codec

  const NONCE_SIZE: nat := 8
  const WORD_SIZE: nat := 32
  const ADDRESS_SIZE: nat := 20

  datatype AccountChange = AccountChange(
    touched: bool,
    created: bool,
    selfdestructed: bool,
    nonce: nat,
    balance: nat,
    codeHash: nat,
    storage: map<nat, nat>)

  type StateChanges = map<nat, AccountChange>

  datatype Limits = Limits(maxAccounts: nat, maxSlots: nat)

  /** The codec of collection lengths, made for lengths up to `max`. */
  datatype Lengths = Lengths(codec: Pair<nat>, max: nat)

  ghost predicate LengthsOk(l: Lengths) {
    SelfDelimiting(l.codec, n => n <= l.max)
  }

  /** A length above the limit is an error. */
  function ReadLength(l: Lengths, b: Buffer, limit: nat): (r: Read<nat>) {
    match l.codec.read(b)
    case Err(e) => Err(e)
    case Ok((n, rest)) => if n <= limit then Ok((n, rest)) else Err(InvalidLength(n))
  }

  // ----- writing -----

  function EncodeSlots(storage: map<nat, nat>, keys: seq<nat>): (r: Buffer)
    requires forall k <- keys :: k in storage
  {
    if keys == [] then [] else SlotEntry(keys[0], storage[keys[0]]) + EncodeSlots(storage, keys[1..])
  }

  function SlotEntry(slot: nat, value: nat): (r: Buffer)
    ensures |r| == WORD_SIZE + WORD_SIZE
  {
    ToBytes(slot, WORD_SIZE) + ToBytes(value, WORD_SIZE)
  }

  function EncodeFlags(a: AccountChange): (r: Buffer) {
    WriteBool(a.touched) + WriteBool(a.created) + WriteBool(a.selfdestructed)
  }

  function EncodeFields(a: AccountChange): (r: Buffer) {
    ToBytes(a.nonce, NONCE_SIZE) + ToBytes(a.balance, WORD_SIZE) + ToBytes(a.codeHash, WORD_SIZE)
  }

  /** The keys of a map in increasing order. */
  function OrderedKeys<T>(m: map<nat, T>): (r: seq<nat>)
    ensures |r| == |m| && Increasing(r) && Elems(r) == m.Keys
    ensures forall k <- r :: k in m
  {
    var r := SortedKeys(m.Keys);
    assert forall k <- r :: k in Elems(r);
    r
  }

  function EncodeAccount(l: Lengths, a: AccountChange): (r: Buffer) {
    EncodeFlags(a) + EncodeFields(a) + l.codec.write(|a.storage|) + EncodeSlots(a.storage, OrderedKeys(a.storage))
  }

  function EncodeAccounts(l: Lengths, changes: StateChanges, keys: seq<nat>): (r: Buffer)
    requires forall k <- keys :: k in changes
  {
    if keys == [] then [] else AccountEntry(l, keys[0], changes[keys[0]]) + EncodeAccounts(l, changes, keys[1..])
  }

  function AccountEntry(l: Lengths, address: nat, a: AccountChange): (r: Buffer)
    ensures |r| == ADDRESS_SIZE + |EncodeAccount(l, a)|
  {
    ToBytes(address, ADDRESS_SIZE) + EncodeAccount(l, a)
  }

  function Encode(l: Lengths, changes: StateChanges): (r: Buffer) {
    l.codec.write(|changes|) + EncodeAccounts(l, changes, OrderedKeys(changes))
  }

  // ----- size -----

  function AccountSize(l: Lengths, a: AccountChange): (r: nat) {
    1 + 1 + 1 + NONCE_SIZE + WORD_SIZE + WORD_SIZE + |l.codec.write(|a.storage|)| + |a.storage| * (WORD_SIZE + WORD_SIZE)
  }

  function AccountSizes(l: Lengths, changes: StateChanges, keys: seq<nat>): (r: nat)
    requires forall k <- keys :: k in changes
  {
    if keys == [] then 0
    else ADDRESS_SIZE + AccountSize(l, changes[keys[0]]) + AccountSizes(l, changes, keys[1..])
  }

  function EncodeSize(l: Lengths, changes: StateChanges): (r: nat) {
    |l.codec.write(|changes|)| + AccountSizes(l, changes, OrderedKeys(changes))
  }

  lemma {:induction false} SlotsSize(storage: map<nat, nat>, keys: seq<nat>)
    requires forall k <- keys :: k in storage
    ensures |EncodeSlots(storage, keys)| == |keys| * (WORD_SIZE + WORD_SIZE)
  {
    if keys != [] {
      SlotsSize(storage, keys[1..]);
    }
  }

  lemma {:induction false} AccountsSize(l: Lengths, changes: StateChanges, keys: seq<nat>)
    requires forall k <- keys :: k in changes
    ensures |EncodeAccounts(l, changes, keys)| == AccountSizes(l, changes, keys)
  {
    if keys != [] {
      var a := changes[keys[0]];
      SlotsSize(a.storage, OrderedKeys(a.storage));
      AccountsSize(l, changes, keys[1..]);
    }
  }

  /** The announced size is the length of the encoding, for every value. */
  lemma SizeIsLength(l: Lengths, changes: StateChanges)
    ensures EncodeSize(l, changes) == |Encode(l, changes)|
  {
    AccountsSize(l, changes, OrderedKeys(changes));
  }

  // ----- reading -----

  function DecodeSlots(b: Buffer, n: nat, storage: map<nat, nat>): (r: Read<map<nat, nat>>)
    decreases n
  {
    if n == 0 then Ok((storage, b))
    else
      match ReadFixed(b, WORD_SIZE)
      case Err(e) => Err(e)
      case Ok((slot, b1)) =>
        match ReadFixed(b1, WORD_SIZE)
        case Err(e) => Err(e)
        case Ok((value, b2)) => DecodeSlots(b2, n - 1, storage[slot := value])
  }

  function DecodeFlags(b: Buffer): (r: Read<(bool, bool, bool)>) {
    match ReadBool(b)
    case Err(e) => Err(e)
    case Ok((touched, b1)) =>
      match ReadBool(b1)
      case Err(e) => Err(e)
      case Ok((created, b2)) =>
        match ReadBool(b2)
        case Err(e) => Err(e)
        case Ok((selfdestructed, b3)) => Ok(((touched, created, selfdestructed), b3))
  }

  function DecodeFields(b: Buffer): (r: Read<(nat, nat, nat)>) {
    match ReadFixed(b, NONCE_SIZE)
    case Err(e) => Err(e)
    case Ok((nonce, b1)) =>
      match ReadFixed(b1, WORD_SIZE)
      case Err(e) => Err(e)
      case Ok((balance, b2)) =>
        match ReadFixed(b2, WORD_SIZE)
        case Err(e) => Err(e)
        case Ok((codeHash, b3)) => Ok(((nonce, balance, codeHash), b3))
  }

  function DecodeAccount(l: Lengths, b: Buffer, limits: Limits): (r: Read<AccountChange>) {
    match DecodeFlags(b)
    case Err(e) => Err(e)
    case Ok((flags, b1)) =>
      match DecodeFields(b1)
      case Err(e) => Err(e)
      case Ok((fields, b2)) =>
        match ReadLength(l, b2, limits.maxSlots)
        case Err(e) => Err(e)
        case Ok((slots, b3)) =>
          match DecodeSlots(b3, slots, map[])
          case Err(e) => Err(e)
          case Ok((storage, b4)) =>
            Ok((AccountChange(flags.0, flags.1, flags.2, fields.0, fields.1, fields.2, storage), b4))
  }

  function DecodeAccounts(l: Lengths, b: Buffer, limits: Limits, n: nat, changes: StateChanges): (r: Read<StateChanges>)
    decreases n
  {
    if n == 0 then Ok((changes, b))
    else
      match ReadFixed(b, ADDRESS_SIZE)
      case Err(e) => Err(e)
      case Ok((address, b1)) =>
        match DecodeAccount(l, b1, limits)
        case Err(e) => Err(e)
        case Ok((change, b2)) => DecodeAccounts(l, b2, limits, n - 1, changes[address := change])
  }

  function Decode(l: Lengths, b: Buffer, limits: Limits): (r: Read<StateChanges>) {
    match ReadLength(l, b, limits.maxAccounts)
    case Err(e) => Err(e)
    case Ok((accounts, rest)) => DecodeAccounts(l, rest, limits, accounts, map[])
  }

  // ----- the loops -----

  lemma SlotsStep(out: Buffer, storage: map<nat, nat>, keys: seq<nat>, i: nat)
    requires i < |keys| && forall k <- keys :: k in storage
    ensures out + SlotEntry(keys[i], storage[keys[i]]) + EncodeSlots(storage, keys[i + 1..])
      == out + EncodeSlots(storage, keys[i..])
  {
    assert keys[i..][1..] == keys[i + 1..];
    Regroup3(out, SlotEntry(keys[i], storage[keys[i]]), EncodeSlots(storage, keys[i + 1..]));
  }

  method WriteSlots(buf: Buffer, storage: map<nat, nat>, keys: seq<nat>) returns (out: Buffer)
    requires forall k <- keys :: k in storage
    ensures out == buf + EncodeSlots(storage, keys)
  {
    out := buf;
    for i := 0 to |keys|
      invariant out + EncodeSlots(storage, keys[i..]) == buf + EncodeSlots(storage, keys)
    {
      SlotsStep(out, storage, keys, i);
      out := out + SlotEntry(keys[i], storage[keys[i]]);
    }
    assert out + [] == out;
  }

  method WriteAccount(l: Lengths, buf: Buffer, a: AccountChange) returns (out: Buffer)
    ensures out == buf + EncodeAccount(l, a)
  {
    out := buf + EncodeFlags(a);
    out := out + EncodeFields(a);
    out := out + l.codec.write(|a.storage|);
    out := WriteSlots(out, a.storage, OrderedKeys(a.storage));
    var slots := EncodeSlots(a.storage, OrderedKeys(a.storage));
    Regroup5(buf, EncodeFlags(a), EncodeFields(a), l.codec.write(|a.storage|), slots);
    Regroup4(EncodeFlags(a), EncodeFields(a), l.codec.write(|a.storage|), slots);
  }

  /** `out` is `buf` with the first `i` accounts written. */
  ghost predicate AccountsWritten(l: Lengths, buf: Buffer, out: Buffer, changes: StateChanges, keys: seq<nat>, i: nat)
    requires i <= |keys| && forall k <- keys :: k in changes
  {
    out + EncodeAccounts(l, changes, keys[i..]) == buf + EncodeAccounts(l, changes, keys)
  }

  lemma AccountsStart(l: Lengths, buf: Buffer, changes: StateChanges, keys: seq<nat>)
    requires forall k <- keys :: k in changes
    ensures AccountsWritten(l, buf, buf, changes, keys, 0)
  {
    assert keys[0..] == keys;
  }

  lemma AccountsStep(l: Lengths, buf: Buffer, out: Buffer, changes: StateChanges, keys: seq<nat>, i: nat)
    requires i < |keys| && (forall k <- keys :: k in changes) && AccountsWritten(l, buf, out, changes, keys, i)
    ensures AccountsWritten(l, buf, out + AccountEntry(l, keys[i], changes[keys[i]]), changes, keys, i + 1)
  {
    assert keys[i..][1..] == keys[i + 1..];
    Regroup3(out, AccountEntry(l, keys[i], changes[keys[i]]), EncodeAccounts(l, changes, keys[i + 1..]));
  }

  lemma AccountsDone(l: Lengths, buf: Buffer, out: Buffer, changes: StateChanges, keys: seq<nat>)
    requires (forall k <- keys :: k in changes) && AccountsWritten(l, buf, out, changes, keys, |keys|)
    ensures out == buf + EncodeAccounts(l, changes, keys)
  {
    assert keys[|keys|..] == [];
    assert out + [] == out;
  }

  method WriteAccountEntry(l: Lengths, buf: Buffer, address: nat, a: AccountChange) returns (out: Buffer)
    ensures out == buf + AccountEntry(l, address, a)
  {
    out := buf + ToBytes(address, ADDRESS_SIZE);
    out := WriteAccount(l, out, a);
    Regroup3(buf, ToBytes(address, ADDRESS_SIZE), EncodeAccount(l, a));
  }

  method WriteAccounts(l: Lengths, buf: Buffer, changes: StateChanges, keys: seq<nat>) returns (out: Buffer)
    requires forall k <- keys :: k in changes
    ensures out == buf + EncodeAccounts(l, changes, keys)
  {
    out := buf;
    AccountsStart(l, buf, changes, keys);
    for i := 0 to |keys|
      invariant AccountsWritten(l, buf, out, changes, keys, i)
    {
      AccountsStep(l, buf, out, changes, keys, i);
      out := WriteAccountEntry(l, out, keys[i], changes[keys[i]]);
    }
    AccountsDone(l, buf, out, changes, keys);
  }

  method Write(l: Lengths, buf: Buffer, changes: StateChanges) returns (out: Buffer)
    ensures out == buf + Encode(l, changes)
  {
    out := buf + l.codec.write(|changes|);
    out := WriteAccounts(l, out, changes, OrderedKeys(changes));
    Regroup3(buf, l.codec.write(|changes|), EncodeAccounts(l, changes, OrderedKeys(changes)));
  }

  method ReadSlots(buf: Buffer, n: nat) returns (r: Read<map<nat, nat>>)
    ensures r == DecodeSlots(buf, n, map[])
  {
    var reader, storage: map<nat, nat> := buf, map[];
    for i := 0 to n
      invariant DecodeSlots(reader, n - i, storage) == DecodeSlots(buf, n, map[])
    {
      var slot := ReadFixed(reader, WORD_SIZE);
      if slot.Err? {
        return Err(slot.error);
      }
      var value := ReadFixed(slot.value.1, WORD_SIZE);
      if value.Err? {
        return Err(value.error);
      }
      storage := storage[slot.value.0 := value.value.0];
      reader := value.value.1;
    }
    r := Ok((storage, reader));
  }

  method ReadAccount(l: Lengths, buf: Buffer, limits: Limits) returns (r: Read<AccountChange>)
    ensures r == DecodeAccount(l, buf, limits)
  {
    var flags := DecodeFlags(buf);
    if flags.Err? {
      return Err(flags.error);
    }
    var fields := DecodeFields(flags.value.1);
    if fields.Err? {
      return Err(fields.error);
    }
    var slots := ReadLength(l, fields.value.1, limits.maxSlots);
    if slots.Err? {
      return Err(slots.error);
    }
    var storage := ReadSlots(slots.value.1, slots.value.0);
    if storage.Err? {
      return Err(storage.error);
    }
    var (touched, created, selfdestructed) := flags.value.0;
    var (nonce, balance, codeHash) := fields.value.0;
    r := Ok((AccountChange(touched, created, selfdestructed, nonce, balance, codeHash, storage.value.0), storage.value.1));
  }

  method ReadChanges(l: Lengths, buf: Buffer, limits: Limits) returns (r: Read<StateChanges>)
    ensures r == Decode(l, buf, limits)
  {
    var count := ReadLength(l, buf, limits.maxAccounts);
    if count.Err? {
      return Err(count.error);
    }
    var reader, changes: StateChanges := count.value.1, map[];
    for i := 0 to count.value.0
      invariant DecodeAccounts(l, reader, limits, count.value.0 - i, changes) == Decode(l, buf, limits)
    {
      var address := ReadFixed(reader, ADDRESS_SIZE);
      if address.Err? {
        return Err(address.error);
      }
      var change := ReadAccount(l, address.value.1, limits);
      if change.Err? {
        return Err(change.error);
      }
      changes := changes[address.value.0 := change.value.0];
      reader := change.value.1;
    }
    r := Ok((changes, reader));
  }

  // ----- round trip -----

  /** Values that fit their widths, with a length the length codec is made for. */
  ghost predicate AccountFits(l: Lengths, a: AccountChange) {
    && a.nonce < Pow256(NONCE_SIZE) && a.balance < Pow256(WORD_SIZE) && a.codeHash < Pow256(WORD_SIZE)
    && |a.storage| <= l.max
    && forall k <- a.storage :: k < Pow256(WORD_SIZE) && a.storage[k] < Pow256(WORD_SIZE)
  }

  ghost predicate Fits(l: Lengths, changes: StateChanges) {
    && |changes| <= l.max
    && forall k <- changes :: k < Pow256(ADDRESS_SIZE) && AccountFits(l, changes[k])
  }

  ghost predicate WithinLimits(limits: Limits, changes: StateChanges) {
    |changes| <= limits.maxAccounts && forall k <- changes :: |changes[k].storage| <= limits.maxSlots
  }

  lemma LengthThenRest(l: Lengths, n: nat, rest: Buffer, limit: nat)
    requires LengthsOk(l) && n <= l.max
    ensures ReadLength(l, l.codec.write(n) + rest, limit) == if n <= limit then Ok((n, rest)) else Err(InvalidLength(n))
  {
    ThenRest(l.codec, (m: nat) => m <= l.max, n, rest);
  }

  /** The entries of a map for some of its keys. */
  function Part<T>(m: map<nat, T>, keys: seq<nat>): (r: map<nat, T>)
    requires forall k <- keys :: k in m
  {
    map k | k in Elems(keys) :: m[k]
  }

  lemma {:induction false} SlotsRoundTrip(storage: map<nat, nat>, keys: seq<nat>, sofar: map<nat, nat>, rest: Buffer)
    requires forall k <- keys :: k in storage && k < Pow256(WORD_SIZE) && storage[k] < Pow256(WORD_SIZE)
    ensures DecodeSlots(EncodeSlots(storage, keys) + rest, |keys|, sofar)
      == Ok((sofar + Part(storage, keys), rest))
    decreases |keys|
  {
    if keys == [] {
      assert [] + rest == rest;
      assert sofar + map[] == sofar;
    } else {
      var slot, value := keys[0], storage[keys[0]];
      var after := EncodeSlots(storage, keys[1..]) + rest;
      Regroup3(SlotEntry(slot, value), EncodeSlots(storage, keys[1..]), rest);
      Regroup3(ToBytes(slot, WORD_SIZE), ToBytes(value, WORD_SIZE), after);
      FixedThenRest(slot, WORD_SIZE, ToBytes(value, WORD_SIZE) + after);
      FixedThenRest(value, WORD_SIZE, after);
      SlotsRoundTrip(storage, keys[1..], sofar[slot := value], rest);
      SplitFirst(storage, keys, sofar);
    }
  }

  lemma SplitFirst<T>(m: map<nat, T>, keys: seq<nat>, sofar: map<nat, T>)
    requires keys != [] && forall k <- keys :: k in m
    ensures sofar[keys[0] := m[keys[0]]] + Part(m, keys[1..])
      == sofar + Part(m, keys)
  {
    assert keys == [keys[0]] + keys[1..];
    assert Elems(keys) == {keys[0]} + Elems(keys[1..]);
  }

  lemma FlagsRoundTrip(a: AccountChange, rest: Buffer)
    ensures DecodeFlags(EncodeFlags(a) + rest) == Ok(((a.touched, a.created, a.selfdestructed), rest))
  {
    var b2 := WriteBool(a.selfdestructed) + rest;
    var b1 := WriteBool(a.created) + b2;
    assert EncodeFlags(a) + rest == WriteBool(a.touched) + b1;
    BoolThenRest(a.touched, b1);
    BoolThenRest(a.created, b2);
    BoolThenRest(a.selfdestructed, rest);
  }

  lemma FieldsRoundTrip(a: AccountChange, rest: Buffer)
    requires a.nonce < Pow256(NONCE_SIZE) && a.balance < Pow256(WORD_SIZE) && a.codeHash < Pow256(WORD_SIZE)
    ensures DecodeFields(EncodeFields(a) + rest) == Ok(((a.nonce, a.balance, a.codeHash), rest))
  {
    var b2 := ToBytes(a.codeHash, WORD_SIZE) + rest;
    var b1 := ToBytes(a.balance, WORD_SIZE) + b2;
    assert EncodeFields(a) + rest == ToBytes(a.nonce, NONCE_SIZE) + b1;
    FixedThenRest(a.nonce, NONCE_SIZE, b1);
    FixedThenRest(a.balance, WORD_SIZE, b2);
    FixedThenRest(a.codeHash, WORD_SIZE, rest);
  }

  lemma Rebuilt<T>(m: map<nat, T>, keys: seq<nat>)
    requires Elems(keys) == m.Keys && forall k <- keys :: k in m
    ensures map[] + Part(m, keys) == m
  {
  }

  lemma StorageRoundTrip(l: Lengths, storage: map<nat, nat>, rest: Buffer)
    requires forall k <- storage :: k < Pow256(WORD_SIZE) && storage[k] < Pow256(WORD_SIZE)
    ensures DecodeSlots(EncodeSlots(storage, OrderedKeys(storage)) + rest, |storage|, map[]) == Ok((storage, rest))
  {
    var keys := OrderedKeys(storage);
    SlotsRoundTrip(storage, keys, map[], rest);
    Rebuilt(storage, keys);
  }

  /** How the parts of an account add up. */
  lemma DecodeAccountParts(l: Lengths, b: Buffer, limits: Limits, a: AccountChange, b1: Buffer, b2: Buffer, b3: Buffer, rest: Buffer)
    requires DecodeFlags(b) == Ok(((a.touched, a.created, a.selfdestructed), b1))
    requires DecodeFields(b1) == Ok(((a.nonce, a.balance, a.codeHash), b2))
    requires ReadLength(l, b2, limits.maxSlots)
      == if |a.storage| <= limits.maxSlots then Ok((|a.storage|, b3)) else Err(InvalidLength(|a.storage|))
    requires DecodeSlots(b3, |a.storage|, map[]) == Ok((a.storage, rest))
    ensures DecodeAccount(l, b, limits)
      == if |a.storage| <= limits.maxSlots then Ok((a, rest)) else Err(InvalidLength(|a.storage|))
  {
  }

  /** One account reads back, or its slot count is refused. */
  lemma AccountRoundTrip(l: Lengths, a: AccountChange, rest: Buffer, limits: Limits)
    requires LengthsOk(l) && AccountFits(l, a)
    ensures DecodeAccount(l, EncodeAccount(l, a) + rest, limits)
      == if |a.storage| <= limits.maxSlots then Ok((a, rest)) else Err(InvalidLength(|a.storage|))
  {
    var b3 := EncodeSlots(a.storage, OrderedKeys(a.storage)) + rest;
    var b2 := l.codec.write(|a.storage|) + b3;
    var b1 := EncodeFields(a) + b2;
    Regroup5(EncodeFlags(a), EncodeFields(a), l.codec.write(|a.storage|), EncodeSlots(a.storage, OrderedKeys(a.storage)), rest);
    FlagsRoundTrip(a, b1);
    FieldsRoundTrip(a, b2);
    LengthThenRest(l, |a.storage|, b3, limits.maxSlots);
    StorageRoundTrip(l, a.storage, rest);
    DecodeAccountParts(l, EncodeFlags(a) + b1, limits, a, b1, b2, b3, rest);
  }

  /** Reading a list of encoded accounts back stops with an error at the first account
      that has too many slots. */
  lemma {:induction false} AccountsRoundTrip(l: Lengths, changes: StateChanges, keys: seq<nat>, sofar: StateChanges, rest: Buffer, limits: Limits)
    requires LengthsOk(l)
    requires forall k <- keys :: k in changes && k < Pow256(ADDRESS_SIZE) && AccountFits(l, changes[k])
    ensures var r := DecodeAccounts(l, EncodeAccounts(l, changes, keys) + rest, limits, |keys|, sofar);
      if SlotsWithin(limits, changes, keys)
      then r == Ok((sofar + Part(changes, keys), rest)) else r.Err?
    decreases |keys|
  {
    if keys == [] {
      assert [] + rest == rest;
      assert sofar + map[] == sofar;
    } else {
      var address, a := keys[0], changes[keys[0]];
      var after := EncodeAccounts(l, changes, keys[1..]) + rest;
      Regroup3(AccountEntry(l, address, a), EncodeAccounts(l, changes, keys[1..]), rest);
      Regroup3(ToBytes(address, ADDRESS_SIZE), EncodeAccount(l, a), after);
      FixedThenRest(address, ADDRESS_SIZE, EncodeAccount(l, a) + after);
      AccountRoundTrip(l, a, after, limits);
      AccountsRoundTrip(l, changes, keys[1..], sofar[address := a], rest, limits);
      SplitFirst(changes, keys, sofar);
    }
  }

  ghost predicate SlotsWithin(limits: Limits, changes: StateChanges, keys: seq<nat>)
    requires forall k <- keys :: k in changes
  {
    keys == [] || (|changes[keys[0]].storage| <= limits.maxSlots && SlotsWithin(limits, changes, keys[1..]))
  }

  lemma {:induction false} SlotsWithinAll(limits: Limits, changes: StateChanges, keys: seq<nat>)
    requires forall k <- keys :: k in changes
    ensures SlotsWithin(limits, changes, keys) <==> forall k <- Elems(keys) :: |changes[k].storage| <= limits.maxSlots
  {
    if keys != [] {
      SlotsWithinAll(limits, changes, keys[1..]);
      assert keys == [keys[0]] + keys[1..];
      assert Elems(keys) == {keys[0]} + Elems(keys[1..]);
    }
  }

  /** Decoding an encoding followed by anything returns the same maps and exactly what
      follows when both counts are within the limits, and fails when one is exceeded. */
  lemma ChangesRoundTripIff(l: Lengths, changes: StateChanges, rest: Buffer, limits: Limits)
    requires LengthsOk(l) && Fits(l, changes)
    ensures var r := Decode(l, Encode(l, changes) + rest, limits);
      if WithinLimits(limits, changes) then r == Ok((changes, rest)) else r.Err?
  {
    var accounts := EncodeAccounts(l, changes, OrderedKeys(changes));
    Regroup3(l.codec.write(|changes|), accounts, rest);
    LengthThenRest(l, |changes|, accounts + rest, limits.maxAccounts);
    AllAccountsRoundTrip(l, changes, rest, limits);
  }

  lemma AllAccountsRoundTrip(l: Lengths, changes: StateChanges, rest: Buffer, limits: Limits)
    requires LengthsOk(l) && Fits(l, changes)
    ensures var r := DecodeAccounts(l, EncodeAccounts(l, changes, OrderedKeys(changes)) + rest, limits, |changes|, map[]);
      if forall k <- changes :: |changes[k].storage| <= limits.maxSlots then r == Ok((changes, rest)) else r.Err?
  {
    var keys := OrderedKeys(changes);
    AccountsRoundTrip(l, changes, keys, map[], rest, limits);
    Rebuilt(changes, keys);
    SlotsWithinAll(limits, changes, keys);
  }

  lemma DecodesTo(l: Lengths, changes: StateChanges, rest: Buffer, b: Buffer)
    requires LengthsOk(l) && Fits(l, changes) && b == Encode(l, changes) + rest
    ensures Decode(l, b, Limits(l.max, l.max)) == Ok((changes, rest))
  {
    ChangesRoundTripIff(l, changes, rest, Limits(l.max, l.max));
    assert WithinLimits(Limits(l.max, l.max), changes);
  }

  /** The encoding is canonical and self-delimiting: different changes never share one,
      and none is the beginning of another. */
  lemma EncodeIsInjective(l: Lengths, a: StateChanges, b: StateChanges, rest1: Buffer, rest2: Buffer)
    requires LengthsOk(l) && Fits(l, a) && Fits(l, b) && Encode(l, a) + rest1 == Encode(l, b) + rest2
    ensures a == b && rest1 == rest2
  {
    var buf := Encode(l, a) + rest1;
    DecodesTo(l, a, rest1, buf);
    DecodesTo(l, b, rest2, buf);
  }
}
