/** Bytes, big-endian integers of fixed width, and readers that return what they leave. */
module Codec {
  import opened Prelude

  newtype Byte = n: int | 0 <= n < 256

  type Buffer = seq<Byte>

  datatype CodecError = EndOfBuffer | InvalidBool | InvalidEnum(tag: nat) | InvalidLength(length: nat)

  /** What a reader returns: a value and the bytes after it. */
  type Read<T> = Result<(T, Buffer), CodecError>

  function Pow256(w: nat): (r: nat)
    ensures r > 0
  {
    if w == 0 then 1 else 256 * Pow256(w - 1)
  }

  function ToBytes(n: nat, w: nat): (r: Buffer)
    ensures |r| == w
  {
    if w == 0 then [] else ToBytes(n / 256, w - 1) + [(n % 256) as Byte]
  }

  function FromBytes(b: Buffer): (r: nat) {
    if b == [] then 0 else FromBytes(b[..|b| - 1]) * 256 + b[|b| - 1] as nat
  }

  /** Fixed-width integers survive writing and reading. */
  lemma {:induction false} FixedRoundTrip(n: nat, w: nat)
    requires n < Pow256(w)
    ensures FromBytes(ToBytes(n, w)) == n
  {
    if w > 0 {
      FixedRoundTrip(n / 256, w - 1);
      assert ToBytes(n, w)[..w - 1] == ToBytes(n / 256, w - 1);
    }
  }

  function ReadFixed(b: Buffer, w: nat): (r: Read<nat>) {
    if |b| < w then Err(EndOfBuffer) else Ok((FromBytes(b[..w]), b[w..]))
  }

  lemma FixedThenRest(n: nat, w: nat, rest: Buffer)
    requires n < Pow256(w)
    ensures ReadFixed(ToBytes(n, w) + rest, w) == Ok((n, rest))
  {
    var b := ToBytes(n, w) + rest;
    assert b[..w] == ToBytes(n, w) && b[w..] == rest;
    FixedRoundTrip(n, w);
  }

  function WriteBool(v: bool): (r: Buffer) {
    [if v then 1 else 0]
  }

  function ReadBool(b: Buffer): (r: Read<bool>) {
    if b == [] then Err(EndOfBuffer)
    else if b[0] == 0 then Ok((false, b[1..]))
    else if b[0] == 1 then Ok((true, b[1..]))
    else Err(InvalidBool)
  }

  lemma BoolThenRest(v: bool, rest: Buffer)
    ensures ReadBool(WriteBool(v) + rest) == Ok((v, rest))
  {
    assert (WriteBool(v) + rest)[1..] == rest;
  }

  /** A writer and a reader for some type of value. */
  datatype Pair<!T> = Pair(write: T -> Buffer, read: Buffer -> Read<T>)

  /** Self-delimiting on `ok`: a value reads back and exactly what follows it is left. */
  ghost predicate SelfDelimiting<T(!new)>(p: Pair<T>, ok: T -> bool) {
    forall v: T, rest: Buffer {:trigger p.read(p.write(v) + rest)} :: ok(v) ==> p.read(p.write(v) + rest) == Ok((v, rest))
  }

  lemma ThenRest<T(!new)>(p: Pair<T>, ok: T -> bool, v: T, rest: Buffer)
    requires SelfDelimiting(p, ok) && ok(v)
    ensures p.read(p.write(v) + rest) == Ok((v, rest))
  {
  }

  // ----- regrouping -----

  lemma Regroup3(a: Buffer, b: Buffer, c: Buffer)
    ensures a + b + c == a + (b + c)
  {
  }

  lemma Regroup4(a: Buffer, b: Buffer, c: Buffer, d: Buffer)
    ensures a + b + c + d == a + (b + (c + d))
  {
  }

  lemma Regroup5(a: Buffer, b: Buffer, c: Buffer, d: Buffer, e: Buffer)
    ensures a + b + c + d + e == a + (b + (c + (d + e)))
  {
  }
}
