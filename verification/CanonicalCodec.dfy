/** Which byte strings are the encoding of what they decode to: the decoder accepts keys
    in any order and more than once, and keeps the last entry. */
module CanonicalCodec {
  import opened Prelude
  import opened Codec
  import opened CommitmentCodec

  /** A length that reads has the one encoding the writer gives it. */
  ghost predicate CanonicalLengths(l: Lengths) {
    forall b: Buffer {:trigger l.codec.read(b)} :: l.codec.read(b).Ok? ==>
      b == l.codec.write(l.codec.read(b).value.0) + l.codec.read(b).value.1
  }

  /** Lengths are made for everything the limits let through. */
  predicate LimitsOk(l: Lengths, limits: Limits) {
    limits.maxAccounts <= l.max && limits.maxSlots <= l.max
  }

  // ----- a counted list of entries -----

  /** How the entries of a map are read and written; `good` says of the bytes at the front
      whether they are as the writer writes them, `ok` whether an entry fits its widths. */
  datatype Entries<!T> = Entries(
    read: Buffer -> Read<(nat, T)>,
    write: (nat, T) -> Buffer,
    good: Buffer -> bool,
    ok: (nat, T) -> bool)

  ghost predicate ReadsBack<T>(e: Entries<T>, b: Buffer) {
    e.read(b).Ok? ==>
    var ((k, v), rest) := e.read(b).value;
    e.ok(k, v) && (e.good(b) <==> b == e.write(k, v) + rest)
  }

  ghost predicate WritesForth<T>(e: Entries<T>, k: nat, v: T, rest: Buffer) {
    e.ok(k, v) ==> e.read(e.write(k, v) + rest) == Ok(((k, v), rest))
  }

  ghost predicate Exact<T(!new)>(e: Entries<T>) {
    && (forall b: Buffer :: ReadsBack(e, b))
    && (forall k: nat, v: T, rest: Buffer :: WritesForth(e, k, v, rest))
  }

  function DecodeMany<T>(e: Entries<T>, b: Buffer, n: nat, sofar: map<nat, T>): (r: Read<map<nat, T>>)
    decreases n
  {
    if n == 0 then Ok((sofar, b))
    else
      match e.read(b)
      case Err(x) => Err(x)
      case Ok(((k, v), rest)) => DecodeMany(e, rest, n - 1, sofar[k := v])
  }

  function EncodeMany<T>(e: Entries<T>, m: map<nat, T>, keys: seq<nat>): (r: Buffer)
    requires forall k <- keys :: k in m
  {
    if keys == [] then [] else e.write(keys[0], m[keys[0]]) + EncodeMany(e, m, keys[1..])
  }

  /** The keys of the next `n` entries, in the order they come. */
  function WireKeys<T>(e: Entries<T>, b: Buffer, n: nat): (r: seq<nat>)
    decreases n
  {
    if n == 0 || e.read(b).Err? then []
    else [e.read(b).value.0.0] + WireKeys(e, e.read(b).value.1, n - 1)
  }

  predicate AllGood<T>(e: Entries<T>, b: Buffer, n: nat)
    decreases n
  {
    n == 0 || e.read(b).Err? || (e.good(b) && AllGood(e, e.read(b).value.1, n - 1))
  }

  ghost predicate Canonical<T>(e: Entries<T>, b: Buffer, n: nat) {
    Increasing(WireKeys(e, b, n)) && AllGood(e, b, n)
  }

  predicate AllOk<T>(e: Entries<T>, m: map<nat, T>) {
    forall k <- m :: e.ok(k, m[k])
  }

  lemma {:induction false} BytesBack(b: Buffer)
    ensures ToBytes(FromBytes(b), |b|) == b && FromBytes(b) < Pow256(|b|)
  {
    if b != [] {
      var init, last := b[..|b| - 1], b[|b| - 1];
      BytesBack(init);
      var n := FromBytes(init) * 256 + last as nat;
      assert n / 256 == FromBytes(init) && n % 256 == last as nat;
      assert b == init + [last];
    }
  }

  lemma FixedBack(b: Buffer, w: nat)
    requires |b| >= w
    ensures b == ToBytes(FromBytes(b[..w]), w) + b[w..] && FromBytes(b[..w]) < Pow256(w)
  {
    BytesBack(b[..w]);
    assert b == b[..w] + b[w..];
  }

  lemma BoolBack(b: Buffer)
    requires ReadBool(b).Ok?
    ensures b == WriteBool(ReadBool(b).value.0) + ReadBool(b).value.1
  {
    assert b == [b[0]] + b[1..];
  }

  lemma {:induction false} IncreasingIsUnique(a: seq<nat>, b: seq<nat>)
    requires Increasing(a) && Increasing(b) && Elems(a) == Elems(b)
    ensures a == b
  {
    if a == [] || b == [] {
      assert |Elems(a)| == |Elems(b)|;
      DistinctSize(a);
      DistinctSize(b);
    } else {
      assert a[0] in Elems(a) && a[0] in b;
      assert b[0] in Elems(b) && b[0] in a;
      assert a[0] == b[0];
      TailElems(a);
      TailElems(b);
      IncreasingIsUnique(a[1..], b[1..]);
      assert a == [a[0]] + a[1..] && b == [b[0]] + b[1..];
    }
  }

  lemma TailElems(a: seq<nat>)
    requires a != [] && Increasing(a)
    ensures Increasing(a[1..]) && Elems(a[1..]) == Elems(a) - {a[0]}
  {
    assert a == [a[0]] + a[1..];
    forall x | x in a[1..] ensures x != a[0] {
      var i :| 0 <= i < |a[1..]| && a[1..][i] == x;
      assert a[i + 1] == x;
    }
  }

  lemma KeysInOrder<T>(m: map<nat, T>, keys: seq<nat>)
    requires Increasing(keys) && Elems(keys) == m.Keys
    ensures keys == OrderedKeys(m) && |keys| == |m|
  {
    IncreasingIsUnique(keys, OrderedKeys(m));
  }

  lemma SizeAfterPut<T>(m: map<nat, T>, k: nat, v: T)
    ensures |m[k := v]| <= |m| + 1
  {
    assert m[k := v].Keys == m.Keys + {k};
    if k in m {
      assert m.Keys + {k} == m.Keys;
    }
    assert |m[k := v]| == |m[k := v].Keys| && |m| == |m.Keys|;
  }

  /** A map after an entry and later entries with other keys. */
  lemma MapJoin<T>(sofar: map<nat, T>, key: nat, value: T, m: map<nat, T>, keys: seq<nat>)
    requires keys != [] && Increasing(keys) && keys[0] == key
    requires m.Keys == sofar[key := value].Keys + Elems(keys[1..])
    requires forall k <- sofar[key := value] :: k !in keys[1..] ==> m[k] == sofar[key := value][k]
    ensures key in m && m[key] == value && m.Keys == sofar.Keys + Elems(keys) && forall k <- keys :: k in m
    ensures forall k <- sofar :: k !in keys ==> m[k] == sofar[k]
  {
    TailElems(keys);
    assert key !in Elems(keys[1..]) && keys == [key] + keys[1..];
    assert Elems(keys) == {key} + Elems(keys[1..]);
  }

  lemma {:induction false} ManyFit<T(!new)>(e: Entries<T>, b: Buffer, n: nat, sofar: map<nat, T>)
    requires Exact(e) && DecodeMany(e, b, n, sofar).Ok? && AllOk(e, sofar)
    ensures var m := DecodeMany(e, b, n, sofar).value.0; AllOk(e, m) && |m| <= |sofar| + n
    decreases n
  {
    if n > 0 {
      var ((k, v), rest) := e.read(b).value;
      assert ReadsBack(e, b);
      SizeAfterPut(sofar, k, v);
      ManyFit(e, rest, n - 1, sofar[k := v]);
    }
  }

  lemma Join<T>(e: Entries<T>, b: Buffer, m: map<nat, T>, keys: seq<nat>, v: T, after: Buffer, rest: Buffer)
    requires keys != [] && (forall k <- keys :: k in m) && m[keys[0]] == v
    requires b == e.write(keys[0], v) + after && after == EncodeMany(e, m, keys[1..]) + rest
    ensures b == EncodeMany(e, m, keys) + rest
  {
    Regroup3(e.write(keys[0], v), EncodeMany(e, m, keys[1..]), rest);
  }

  /** Good entries with increasing keys are written again as they were read. */
  lemma {:induction false} ManyBack<T(!new)>(e: Entries<T>, b: Buffer, n: nat, sofar: map<nat, T>)
    requires Exact(e) && DecodeMany(e, b, n, sofar).Ok? && Canonical(e, b, n)
    ensures var (m, rest) := DecodeMany(e, b, n, sofar).value;
      var keys := WireKeys(e, b, n);
      && |keys| == n && m.Keys == sofar.Keys + Elems(keys)
      && (forall k <- sofar :: k !in keys ==> m[k] == sofar[k])
      && (forall k <- keys :: k in m)
      && b == EncodeMany(e, m, keys) + rest
    decreases n
  {
    if n == 0 {
      assert b == [] + b;
    } else {
      var ((k, v), after) := e.read(b).value;
      assert ReadsBack(e, b);
      var keys := WireKeys(e, b, n);
      assert keys[1..] == WireKeys(e, after, n - 1);
      TailElems(keys);
      ManyBack(e, after, n - 1, sofar[k := v]);
      var (m, rest) := DecodeMany(e, b, n, sofar).value;
      MapJoin(sofar, k, v, m, keys);
      Join(e, b, m, keys, v, after, rest);
    }
  }

  lemma {:induction false} ManyForth<T(!new)>(e: Entries<T>, m: map<nat, T>, keys: seq<nat>, rest: Buffer)
    requires Exact(e) && (forall k <- keys :: k in m) && AllOk(e, m)
    ensures var b := EncodeMany(e, m, keys) + rest; WireKeys(e, b, |keys|) == keys && AllGood(e, b, |keys|)
    decreases |keys|
  {
    if keys != [] {
      var k, v := keys[0], m[keys[0]];
      var after := EncodeMany(e, m, keys[1..]) + rest;
      Regroup3(e.write(k, v), EncodeMany(e, m, keys[1..]), rest);
      assert WritesForth(e, k, v, after) && ReadsBack(e, e.write(k, v) + after);
      ManyForth(e, m, keys[1..], rest);
    }
  }

  /** A counted list is the encoding of the map it decodes to, if and only if its keys
      increase and each entry is as the writer writes it. */
  lemma ManyBackIff<T(!new)>(e: Entries<T>, b: Buffer, n: nat)
    requires Exact(e) && DecodeMany(e, b, n, map[]).Ok?
    ensures var (m, rest) := DecodeMany(e, b, n, map[]).value;
      && AllOk(e, m) && |m| <= n
      && (n == |m| && b == EncodeMany(e, m, OrderedKeys(m)) + rest <==> Canonical(e, b, n))
  {
    var (m, rest) := DecodeMany(e, b, n, map[]).value;
    ManyFit(e, b, n, map[]);
    if Canonical(e, b, n) {
      ManyBack(e, b, n, map[]);
      KeysInOrder(m, WireKeys(e, b, n));
    }
    ManyForth(e, m, OrderedKeys(m), rest);
  }

  // ----- slots -----

  function ReadSlot(b: Buffer): (r: Read<(nat, nat)>) {
    match ReadFixed(b, WORD_SIZE)
    case Err(e) => Err(e)
    case Ok((slot, b1)) =>
      match ReadFixed(b1, WORD_SIZE)
      case Err(e) => Err(e)
      case Ok((value, b2)) => Ok(((slot, value), b2))
  }

  /** Slots are read and written in one way only. */
  function Slots(): (r: Entries<nat>) {
    Entries(ReadSlot, SlotEntry, (b: Buffer) => true, (k: nat, v: nat) => k < Pow256(WORD_SIZE) && v < Pow256(WORD_SIZE))
  }

  lemma SlotBack(b: Buffer)
    requires ReadSlot(b).Ok?
    ensures var ((slot, value), rest) := ReadSlot(b).value;
      b == SlotEntry(slot, value) + rest && slot < Pow256(WORD_SIZE) && value < Pow256(WORD_SIZE)
  {
    var ((slot, value), rest) := ReadSlot(b).value;
    FixedBack(b, WORD_SIZE);
    FixedBack(b[WORD_SIZE..], WORD_SIZE);
    Regroup3(ToBytes(slot, WORD_SIZE), ToBytes(value, WORD_SIZE), rest);
  }

  lemma SlotForth(slot: nat, value: nat, rest: Buffer)
    requires slot < Pow256(WORD_SIZE) && value < Pow256(WORD_SIZE)
    ensures ReadSlot(SlotEntry(slot, value) + rest) == Ok(((slot, value), rest))
  {
    Regroup3(ToBytes(slot, WORD_SIZE), ToBytes(value, WORD_SIZE), rest);
    FixedThenRest(slot, WORD_SIZE, ToBytes(value, WORD_SIZE) + rest);
    FixedThenRest(value, WORD_SIZE, rest);
  }

  lemma SlotsExact()
    ensures Exact(Slots())
  {
    forall b: Buffer ensures ReadsBack(Slots(), b) {
      if ReadSlot(b).Ok? {
        SlotBack(b);
      }
    }
    forall k: nat, v: nat, rest: Buffer ensures WritesForth(Slots(), k, v, rest) {
      if Slots().ok(k, v) {
        SlotForth(k, v, rest);
      }
    }
  }

  lemma {:induction false} DecodeSlotsIsMany(b: Buffer, n: nat, sofar: map<nat, nat>)
    ensures DecodeSlots(b, n, sofar) == DecodeMany(Slots(), b, n, sofar)
    decreases n
  {
    if n > 0 && ReadSlot(b).Ok? {
      var ((slot, value), rest) := ReadSlot(b).value;
      DecodeSlotsIsMany(rest, n - 1, sofar[slot := value]);
    }
  }

  lemma {:induction false} EncodeSlotsIsMany(m: map<nat, nat>, keys: seq<nat>)
    requires forall k <- keys :: k in m
    ensures EncodeSlots(m, keys) == EncodeMany(Slots(), m, keys)
  {
    if keys != [] {
      EncodeSlotsIsMany(m, keys[1..]);
    }
  }

  ghost predicate SlotsFit(m: map<nat, nat>) {
    forall k <- m :: k < Pow256(WORD_SIZE) && m[k] < Pow256(WORD_SIZE)
  }

  lemma StorageBackIff(b: Buffer, n: nat)
    requires DecodeSlots(b, n, map[]).Ok?
    ensures var (m, rest) := DecodeSlots(b, n, map[]).value;
      && SlotsFit(m) && |m| <= n
      && (n == |m| && b == EncodeSlots(m, OrderedKeys(m)) + rest <==> Canonical(Slots(), b, n))
  {
    SlotsExact();
    DecodeSlotsIsMany(b, n, map[]);
    var m := DecodeSlots(b, n, map[]).value.0;
    EncodeSlotsIsMany(m, OrderedKeys(m));
    ManyBackIff(Slots(), b, n);
    assert AllOk(Slots(), m);
  }

  // ----- one account -----

  /** The slots of the account at the front come in strictly increasing order. */
  ghost predicate SlotsInOrder(l: Lengths, b: Buffer, limits: Limits) {
    match DecodeFlags(b)
    case Err(_) => false
    case Ok((_, b1)) =>
      match DecodeFields(b1)
      case Err(_) => false
      case Ok((_, b2)) =>
        match ReadLength(l, b2, limits.maxSlots)
        case Err(_) => false
        case Ok((n, b3)) => Canonical(Slots(), b3, n)
  }

  lemma FlagsBack(b: Buffer)
    requires DecodeFlags(b).Ok?
    ensures var ((x, y, z), rest) := DecodeFlags(b).value; b == (WriteBool(x) + WriteBool(y) + WriteBool(z)) + rest
  {
    var ((x, y, z), rest) := DecodeFlags(b).value;
    var b1 := ReadBool(b).value.1;
    BoolBack(b);
    BoolBack(b1);
    BoolBack(ReadBool(b1).value.1);
    Regroup4(WriteBool(x), WriteBool(y), WriteBool(z), rest);
  }

  lemma FieldsBack(b: Buffer)
    requires DecodeFields(b).Ok?
    ensures var ((x, y, z), rest) := DecodeFields(b).value;
      && b == (ToBytes(x, NONCE_SIZE) + ToBytes(y, WORD_SIZE) + ToBytes(z, WORD_SIZE)) + rest
      && x < Pow256(NONCE_SIZE) && y < Pow256(WORD_SIZE) && z < Pow256(WORD_SIZE)
  {
    var ((x, y, z), rest) := DecodeFields(b).value;
    var b1 := b[NONCE_SIZE..];
    var b2 := b1[WORD_SIZE..];
    FixedBack(b, NONCE_SIZE);
    FixedBack(b1, WORD_SIZE);
    FixedBack(b2, WORD_SIZE);
    Regroup4(ToBytes(x, NONCE_SIZE), ToBytes(y, WORD_SIZE), ToBytes(z, WORD_SIZE), rest);
  }

  lemma LengthBack(l: Lengths, b: Buffer, limit: nat)
    requires CanonicalLengths(l) && ReadLength(l, b, limit).Ok?
    ensures b == l.codec.write(ReadLength(l, b, limit).value.0) + ReadLength(l, b, limit).value.1
    ensures ReadLength(l, b, limit).value.0 <= limit
  {
  }

  /** Two written lengths in front of anything agree only if all agrees. */
  lemma LengthsApart(l: Lengths, n: nat, a: Buffer, m: nat, b: Buffer)
    requires LengthsOk(l) && n <= l.max && m <= l.max
    ensures l.codec.write(n) + a == l.codec.write(m) + b <==> n == m && a == b
  {
    LengthThenRest(l, n, a, l.max);
    LengthThenRest(l, m, b, l.max);
  }

  lemma SameFront(p: Buffer, a: Buffer, b: Buffer)
    ensures p + a == p + b <==> a == b
  {
    assert (p + a)[|p|..] == a && (p + b)[|p|..] == b;
  }

  /** The parts of a decoded account. */
  datatype Parts = Parts(front: Buffer, n: nat, slots: Buffer)

  ghost predicate PartsOf(l: Lengths, b: Buffer, limits: Limits, p: Parts) {
    && DecodeAccount(l, b, limits).Ok?
    && var (a, rest) := DecodeAccount(l, b, limits).value;
    && p.front == EncodeFlags(a) + EncodeFields(a)
    && b == p.front + (l.codec.write(p.n) + p.slots)
    && p.n <= limits.maxSlots
    && DecodeSlots(p.slots, p.n, map[]) == Ok((a.storage, rest))
    && SlotsInOrder(l, b, limits) == Canonical(Slots(), p.slots, p.n)
    && a.nonce < Pow256(NONCE_SIZE) && a.balance < Pow256(WORD_SIZE) && a.codeHash < Pow256(WORD_SIZE)
  }

  lemma AccountParts(l: Lengths, b: Buffer, limits: Limits) returns (p: Parts)
    requires CanonicalLengths(l) && DecodeAccount(l, b, limits).Ok?
    ensures PartsOf(l, b, limits, p)
  {
    var (a, rest) := DecodeAccount(l, b, limits).value;
    var b1 := DecodeFlags(b).value.1;
    var b2 := DecodeFields(b1).value.1;
    var (n, b3) := ReadLength(l, b2, limits.maxSlots).value;
    FlagsBack(b);
    FieldsBack(b1);
    LengthBack(l, b2, limits.maxSlots);
    p := Parts(EncodeFlags(a) + EncodeFields(a), n, b3);
    Regroup3(EncodeFlags(a), EncodeFields(a), b2);
  }

  /** An account is the encoding of what it decodes to, if and only if its slots are in
      order. */
  lemma AccountBackIff(l: Lengths, b: Buffer, limits: Limits)
    requires LengthsOk(l) && CanonicalLengths(l) && LimitsOk(l, limits) && DecodeAccount(l, b, limits).Ok?
    ensures var (a, rest) := DecodeAccount(l, b, limits).value;
      && AccountFits(l, a) && |a.storage| <= limits.maxSlots
      && (b == EncodeAccount(l, a) + rest <==> SlotsInOrder(l, b, limits))
  {
    var (a, rest) := DecodeAccount(l, b, limits).value;
    var p := AccountParts(l, b, limits);
    StorageBackIff(p.slots, p.n);
    var slots := EncodeSlots(a.storage, OrderedKeys(a.storage));
    Regroup3(p.front, l.codec.write(|a.storage|), slots);
    Regroup4(p.front, l.codec.write(|a.storage|), slots, rest);
    SameFront(p.front, l.codec.write(p.n) + p.slots, l.codec.write(|a.storage|) + (slots + rest));
    LengthsApart(l, p.n, p.slots, |a.storage|, slots + rest);
  }

  // ----- all accounts -----

  /** The account at the front, with its address. */
  function DecodeEntry(l: Lengths, b: Buffer, limits: Limits): (r: Read<(nat, AccountChange)>) {
    match ReadFixed(b, ADDRESS_SIZE)
    case Err(e) => Err(e)
    case Ok((address, b1)) =>
      match DecodeAccount(l, b1, limits)
      case Err(e) => Err(e)
      case Ok((a, b2)) => Ok(((address, a), b2))
  }

  ghost predicate EntryFits(l: Lengths, limits: Limits, address: nat, a: AccountChange) {
    address < Pow256(ADDRESS_SIZE) && AccountFits(l, a) && |a.storage| <= limits.maxSlots
  }

  ghost predicate EntryInOrder(l: Lengths, b: Buffer, limits: Limits) {
    |b| >= ADDRESS_SIZE && SlotsInOrder(l, b[ADDRESS_SIZE..], limits)
  }

  ghost function Accounts(l: Lengths, limits: Limits): (r: Entries<AccountChange>) {
    Entries(
      (b: Buffer) => DecodeEntry(l, b, limits),
      (k: nat, a: AccountChange) => AccountEntry(l, k, a),
      (b: Buffer) => EntryInOrder(l, b, limits),
      (k: nat, a: AccountChange) => EntryFits(l, limits, k, a))
  }

  lemma EntryBackIff(l: Lengths, b: Buffer, limits: Limits)
    requires LengthsOk(l) && CanonicalLengths(l) && LimitsOk(l, limits) && DecodeEntry(l, b, limits).Ok?
    ensures var ((address, a), rest) := DecodeEntry(l, b, limits).value;
      EntryFits(l, limits, address, a) && (EntryInOrder(l, b, limits) <==> b == AccountEntry(l, address, a) + rest)
  {
    var ((address, a), rest) := DecodeEntry(l, b, limits).value;
    var b1 := b[ADDRESS_SIZE..];
    FixedBack(b, ADDRESS_SIZE);
    AccountBackIff(l, b1, limits);
    Regroup3(ToBytes(address, ADDRESS_SIZE), EncodeAccount(l, a), rest);
    SameFront(ToBytes(address, ADDRESS_SIZE), b1, EncodeAccount(l, a) + rest);
  }

  lemma EntryForth(l: Lengths, address: nat, a: AccountChange, rest: Buffer, limits: Limits)
    requires LengthsOk(l) && EntryFits(l, limits, address, a)
    ensures DecodeEntry(l, AccountEntry(l, address, a) + rest, limits) == Ok(((address, a), rest))
  {
    Regroup3(ToBytes(address, ADDRESS_SIZE), EncodeAccount(l, a), rest);
    FixedThenRest(address, ADDRESS_SIZE, EncodeAccount(l, a) + rest);
    AccountRoundTrip(l, a, rest, limits);
  }

  lemma AccountsExact(l: Lengths, limits: Limits)
    requires LengthsOk(l) && CanonicalLengths(l) && LimitsOk(l, limits)
    ensures Exact(Accounts(l, limits))
  {
    forall b: Buffer ensures ReadsBack(Accounts(l, limits), b) {
      if DecodeEntry(l, b, limits).Ok? {
        EntryBackIff(l, b, limits);
      }
    }
    forall k: nat, a: AccountChange, rest: Buffer ensures WritesForth(Accounts(l, limits), k, a, rest) {
      if EntryFits(l, limits, k, a) {
        EntryForth(l, k, a, rest, limits);
      }
    }
  }

  lemma {:induction false} DecodeAccountsIsMany(l: Lengths, b: Buffer, limits: Limits, n: nat, sofar: StateChanges)
    ensures DecodeAccounts(l, b, limits, n, sofar) == DecodeMany(Accounts(l, limits), b, n, sofar)
    decreases n
  {
    if n > 0 {
      DecodeAccountsStep(l, b, limits, n, sofar);
      var entry := DecodeEntry(l, b, limits);
      if entry.Ok? {
        var ((address, a), rest) := entry.value;
        DecodeAccountsIsMany(l, rest, limits, n - 1, sofar[address := a]);
      }
    }
  }

  lemma DecodeAccountsStep(l: Lengths, b: Buffer, limits: Limits, n: nat, sofar: StateChanges)
    requires n > 0
    ensures DecodeAccounts(l, b, limits, n, sofar) == match DecodeEntry(l, b, limits)
      case Err(e) => Err(e)
      case Ok(((address, a), rest)) => DecodeAccounts(l, rest, limits, n - 1, sofar[address := a])
  {
  }

  lemma {:induction false} EncodeAccountsIsMany(l: Lengths, limits: Limits, changes: StateChanges, keys: seq<nat>)
    requires forall k <- keys :: k in changes
    ensures EncodeAccounts(l, changes, keys) == EncodeMany(Accounts(l, limits), changes, keys)
  {
    if keys != [] {
      EncodeAccountsIsMany(l, limits, changes, keys[1..]);
    }
  }

  ghost predicate AccountsFit(l: Lengths, limits: Limits, changes: StateChanges) {
    forall k <- changes :: EntryFits(l, limits, k, changes[k])
  }

  lemma BodyBackIff(l: Lengths, b: Buffer, limits: Limits, n: nat)
    requires LengthsOk(l) && CanonicalLengths(l) && LimitsOk(l, limits) && DecodeAccounts(l, b, limits, n, map[]).Ok?
    ensures var (v, rest) := DecodeAccounts(l, b, limits, n, map[]).value;
      && AccountsFit(l, limits, v) && |v| <= n
      && (n == |v| && b == EncodeAccounts(l, v, OrderedKeys(v)) + rest <==> Canonical(Accounts(l, limits), b, n))
  {
    AccountsExact(l, limits);
    DecodeAccountsIsMany(l, b, limits, n, map[]);
    var v := DecodeAccounts(l, b, limits, n, map[]).value.0;
    EncodeAccountsIsMany(l, limits, v, OrderedKeys(v));
    ManyBackIff(Accounts(l, limits), b, n);
    assert AllOk(Accounts(l, limits), v);
  }

  /** Addresses come in strictly increasing order, and so do the slots of each account. */
  ghost predicate InOrder(l: Lengths, b: Buffer, limits: Limits) {
    match ReadLength(l, b, limits.maxAccounts)
    case Err(_) => false
    case Ok((n, rest)) => Canonical(Accounts(l, limits), rest, n)
  }

  /** Whatever decodes fits its widths and the limits, so encoding it again and decoding
      that gives the same changes. */
  lemma DecodedFits(l: Lengths, b: Buffer, limits: Limits)
    requires LengthsOk(l) && CanonicalLengths(l) && LimitsOk(l, limits) && Decode(l, b, limits).Ok?
    ensures var (v, rest) := Decode(l, b, limits).value;
      Fits(l, v) && WithinLimits(limits, v) && Decode(l, Encode(l, v) + rest, limits) == Ok((v, rest))
  {
    var (n, body) := ReadLength(l, b, limits.maxAccounts).value;
    var (v, rest) := Decode(l, b, limits).value;
    LengthBack(l, b, limits.maxAccounts);
    BodyBackIff(l, body, limits, n);
    assert forall k <- v :: EntryFits(l, limits, k, v[k]);
    ChangesRoundTripIff(l, v, rest, limits);
  }

  /** Bytes that decode are the encoding of their value, if and only if addresses and
      slots come in strictly increasing order. */
  lemma DecodedIsEncodingIff(l: Lengths, b: Buffer, limits: Limits)
    requires LengthsOk(l) && CanonicalLengths(l) && LimitsOk(l, limits) && Decode(l, b, limits).Ok?
    ensures var (v, rest) := Decode(l, b, limits).value;
      b == Encode(l, v) + rest <==> InOrder(l, b, limits)
  {
    var (n, body) := ReadLength(l, b, limits.maxAccounts).value;
    var (v, rest) := Decode(l, b, limits).value;
    LengthBack(l, b, limits.maxAccounts);
    BodyBackIff(l, body, limits, n);
    var accounts := EncodeAccounts(l, v, OrderedKeys(v));
    Regroup3(l.codec.write(|v|), accounts, rest);
    LengthsApart(l, n, body, |v|, accounts + rest);
  }

  /** Any two accounts written in the wrong order: they decode to the same changes as the
      encoding, which is another byte string. */
  lemma SwappedAccountsDecode(l: Lengths, limits: Limits, x: nat, a: AccountChange, y: nat, c: AccountChange)
    requires LengthsOk(l) && CanonicalLengths(l) && LimitsOk(l, limits) && limits.maxAccounts >= 2
    requires x < y && EntryFits(l, limits, x, a) && EntryFits(l, limits, y, c)
    ensures var b, v := l.codec.write(2) + (AccountEntry(l, y, c) + AccountEntry(l, x, a)), map[x := a, y := c];
      Decode(l, b, limits) == Ok((v, [])) && Decode(l, Encode(l, v), limits) == Ok((v, [])) && b != Encode(l, v)
  {
    var body := AccountEntry(l, y, c) + AccountEntry(l, x, a);
    LengthThenRest(l, 2, body, limits.maxAccounts);
    SwappedBody(l, limits, x, a, y, c);
    OutOfOrder(l, limits, l.codec.write(2) + body, map[x := a, y := c]);
  }

  lemma SwappedBody(l: Lengths, limits: Limits, x: nat, a: AccountChange, y: nat, c: AccountChange)
    requires LengthsOk(l) && CanonicalLengths(l) && LimitsOk(l, limits)
    requires x < y && EntryFits(l, limits, x, a) && EntryFits(l, limits, y, c)
    ensures var body := AccountEntry(l, y, c) + AccountEntry(l, x, a);
      && DecodeAccounts(l, body, limits, 2, map[]) == Ok((map[x := a, y := c], []))
      && !Canonical(Accounts(l, limits), body, 2)
  {
    AccountsExact(l, limits);
    SwappedEntries(Accounts(l, limits), x, a, y, c);
    DecodeAccountsIsMany(l, AccountEntry(l, y, c) + AccountEntry(l, x, a), limits, 2, map[]);
  }

  lemma SwappedEntries<T(!new)>(e: Entries<T>, x: nat, a: T, y: nat, c: T)
    requires Exact(e) && x < y && e.ok(x, a) && e.ok(y, c)
    ensures var b := e.write(y, c) + e.write(x, a);
      DecodeMany(e, b, 2, map[]) == Ok((map[x := a, y := c], [])) && !Canonical(e, b, 2)
  {
    assert e.write(x, a) + [] == e.write(x, a);
    assert WritesForth(e, y, c, e.write(x, a)) && WritesForth(e, x, a, []);
    TwoEntries(e, e.write(y, c) + e.write(x, a), (y, c), e.write(x, a), (x, a), []);
    assert map[y := c][x := a] == map[x := a, y := c];
  }

  lemma OutOfOrder(l: Lengths, limits: Limits, b: Buffer, v: StateChanges)
    requires LengthsOk(l) && CanonicalLengths(l) && LimitsOk(l, limits)
    requires Decode(l, b, limits) == Ok((v, [])) && !InOrder(l, b, limits)
    ensures Decode(l, Encode(l, v), limits) == Ok((v, [])) && b != Encode(l, v)
  {
    DecodedIsEncodingIff(l, b, limits);
    DecodedFits(l, b, limits);
    assert Encode(l, v) + [] == Encode(l, v);
  }

  lemma TwoEntries<T>(e: Entries<T>, b: Buffer, x: (nat, T), b1: Buffer, y: (nat, T), b2: Buffer)
    requires e.read(b) == Ok((x, b1)) && e.read(b1) == Ok((y, b2))
    ensures DecodeMany(e, b, 2, map[]) == Ok((map[x.0 := x.1][y.0 := y.1], b2))
    ensures Canonical(e, b, 2) ==> x.0 < y.0
  {
    assert DecodeMany(e, b1, 1, map[x.0 := x.1]) == DecodeMany(e, b2, 0, map[x.0 := x.1][y.0 := y.1]);
    assert WireKeys(e, b2, 0) == [] && WireKeys(e, b1, 1) == [y.0];
    var keys := WireKeys(e, b, 2);
    assert keys == [x.0] + [y.0] && keys[0] == x.0 && keys[1] == y.0;
  }
}
