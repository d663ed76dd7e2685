/** Base 128 varints and ZigZag, as Go's encoding/binary reads and writes them and the Protocol
    Buffers encoding guide ("Base 128 Varints", "ZigZag") describes them. Readers return the value
    and the bytes left. */
module Varints {
  import opened LogTypes

  const TWO_64: nat := 0x1_0000_0000_0000_0000

  datatype Parsed<+T> = Parsed(value: T, rest: seq<byte>)

  type Reader<+T> = Option<Parsed<T>>

  // ---------------------------------------------------------------------------
  // Unsigned

  function Uvarint(n: nat): (b: seq<byte>)
    ensures b != []
  {
    if n < 128 then [n as byte] else [(n % 128 + 128) as byte] + Uvarint(n / 128)
  }

  /** At most ten bytes, the tenth at most 1. `i` bytes have been read before. */
  function ReadUvarintFrom(b: seq<byte>, i: nat): Reader<nat> {
    if i >= 10 || b == [] then None
    else if b[0] < 128 then
      if i == 9 && b[0] > 1 then None else Some(Parsed(b[0] as nat, b[1..]))
    else
      match ReadUvarintFrom(b[1..], i + 1)
      case None => None
      case Some(p) => Some(Parsed((b[0] - 128) as nat + 128 * p.value, p.rest))
  }

  function ReadUvarint(b: seq<byte>): Reader<nat> {
    ReadUvarintFrom(b, 0)
  }

  /** Reading takes bytes off the front and touches nothing else. */
  lemma {:induction false} ReadUvarintSuffix(b: seq<byte>, i: nat)
    ensures var r := ReadUvarintFrom(b, i);
            r.Some? ==> |r.value.rest| < |b| && r.value.rest == b[|b| - |r.value.rest|..]
    decreases |b|
  {
    if b != [] && b[0] >= 128 && i < 10 {
      ReadUvarintSuffix(b[1..], i + 1);
    }
  }

  /** What is still to come after i bytes of a 64-bit value. */
  function Left(i: nat): nat {
    if i == 0 then TWO_64 else Left(i - 1) / 128
  }

  lemma LeftValues()
    ensures Left(1) == 0x200_0000_0000_0000 && Left(2) == 0x4_0000_0000_0000 && Left(3) == 0x800_0000_0000
    ensures Left(4) == 0x10_0000_0000 && Left(5) == 0x2000_0000 && Left(6) == 0x40_0000
    ensures Left(7) == 0x8000 && Left(8) == 0x100 && Left(9) == 2
  {
    assert Left(1) == TWO_64 / 128;
    assert Left(2) == Left(1) / 128;
    assert Left(3) == Left(2) / 128;
    assert Left(4) == Left(3) / 128;
    assert Left(5) == Left(4) / 128;
    assert Left(6) == Left(5) / 128;
    assert Left(7) == Left(6) / 128;
    assert Left(8) == Left(7) / 128;
    assert Left(9) == Left(8) / 128;
  }

  lemma {:induction false} UvarintFromRoundTrip(n: nat, i: nat, rest: seq<byte>)
    requires i < 10 && n < Left(i)
    ensures ReadUvarintFrom(Uvarint(n) + rest, i) == Some(Parsed(n, rest))
    decreases n
  {
    LeftValues();
    var b := Uvarint(n) + rest;
    if n < 128 {
      assert b[1..] == rest;
    } else {
      assert b[1..] == Uvarint(n / 128) + rest;
      assert i < 9 && n / 128 < Left(i + 1);
      UvarintFromRoundTrip(n / 128, i + 1, rest);
    }
  }

  lemma UvarintRoundTrip(n: nat, rest: seq<byte>)
    requires Uint64(n)
    ensures ReadUvarint(Uvarint(n) + rest) == Some(Parsed(n, rest))
  {
    UvarintFromRoundTrip(n, 0, rest);
  }

  /** Whatever the reader accepts is a 64-bit value. */
  lemma {:induction false} ReadUvarintFromBounded(b: seq<byte>, i: nat)
    requires i < 10
    ensures var r := ReadUvarintFrom(b, i); r.Some? ==> r.value.value < Left(i)
    decreases |b|
  {
    LeftValues();
    if b != [] && b[0] >= 128 && i < 9 {
      ReadUvarintFromBounded(b[1..], i + 1);
    }
  }

  // ---------------------------------------------------------------------------
  // Signed

  function ZigZag(n: int): nat {
    if n >= 0 then 2 * n else -2 * n - 1
  }

  function UnZigZag(u: nat): int {
    if u % 2 == 0 then u / 2 else -(u / 2 as int) - 1
  }

  function Varint(n: int): (b: seq<byte>)
    ensures b != []
  {
    Uvarint(ZigZag(n))
  }

  function ReadVarint(b: seq<byte>): Reader<int> {
    match ReadUvarint(b)
    case None => None
    case Some(p) => Some(Parsed(UnZigZag(p.value), p.rest))
  }

  lemma VarintRoundTrip(n: int, rest: seq<byte>)
    requires Int64(n)
    ensures ReadVarint(Varint(n) + rest) == Some(Parsed(n, rest))
  {
    UvarintRoundTrip(ZigZag(n), rest);
  }

  lemma ReadVarintBounded(b: seq<byte>)
    ensures var r := ReadVarint(b); r.Some? ==> Int64(r.value.value)
  {
    ReadUvarintFromBounded(b, 0);
  }

  // ---------------------------------------------------------------------------
  // Length-prefixed bytes

  function Prefixed(s: seq<byte>): seq<byte> {
    Uvarint(|s|) + s
  }

  function ReadPrefixed(b: seq<byte>): Reader<seq<byte>> {
    match ReadUvarint(b)
    case None => None
    case Some(p) =>
      if p.value > |p.rest| then None else Some(Parsed(p.rest[..p.value], p.rest[p.value..]))
  }

  lemma PrefixedRoundTrip(s: seq<byte>, rest: seq<byte>)
    requires Uint64(|s|)
    ensures ReadPrefixed(Prefixed(s) + rest) == Some(Parsed(s, rest))
  {
    assert Prefixed(s) + rest == Uvarint(|s|) + (s + rest);
    UvarintRoundTrip(|s|, s + rest);
  }

  // ---------------------------------------------------------------------------
  // The bytes

  function Pow128(k: nat): nat {
    if k == 0 then 1 else 128 * Pow128(k - 1)
  }

  /** Seven bits of the number per byte, the lowest first. */
  function Septets(b: seq<byte>): nat {
    if b == [] then 0 else (b[0] % 128) as nat + 128 * Septets(b[1..])
  }

  /** The bytes of an unsigned number: seven bits each, the lowest first, with the high bit set on every
      byte but the last, and no more of them than the number takes. */
  lemma {:induction false} UvarintLayout(n: nat)
    ensures var b := Uvarint(n);
            && Septets(b) == n
            && (forall i :: 0 <= i < |b| - 1 ==> b[i] >= 128) && b[|b| - 1] < 128
            && (|b| > 1 ==> b[|b| - 1] > 0)
    decreases n
  {
    if n >= 128 {
      var b, rest := Uvarint(n), Uvarint(n / 128);
      UvarintLayout(n / 128);
      assert b[1..] == rest;
      assert forall i :: 1 <= i < |b| ==> b[i] == rest[i - 1];
    } else {
      assert Uvarint(n)[1..] == [];
    }
  }

  /** Signed numbers alternate: 0, -1, 1, -2 and so on take 0, 1, 2, 3. */
  lemma VarintLayout(n: int)
    ensures Septets(Varint(n)) == if n < 0 then -2 * n - 1 else 2 * n
  {
    UvarintLayout(ZigZag(n));
  }

  // ---------------------------------------------------------------------------
  // Layouts

  /** The stretch of b from offset i on begins with part. */
  ghost predicate StandsAt(b: seq<byte>, i: nat, part: seq<byte>) {
    i + |part| <= |b| && b[i..i + |part|] == part
  }

  lemma StandsBehind(a: seq<byte>, b: seq<byte>, i: nat, part: seq<byte>)
    requires StandsAt(b, i, part)
    ensures StandsAt(a + b, |a| + i, part)
  {
    assert (a + b)[|a| + i..|a| + i + |part|] == b[i..i + |part|];
  }

  /** Four parts one after the other, from offset i on. */
  ghost predicate FourAt(z: seq<byte>, i: nat, a: seq<byte>, b: seq<byte>, c: seq<byte>, d: seq<byte>) {
    && StandsAt(z, i, a) && StandsAt(z, i + |a|, b) && StandsAt(z, i + |a| + |b|, c) && StandsAt(z, i + |a| + |b| + |c|, d)
  }

  lemma FourParts(a: seq<byte>, b: seq<byte>, c: seq<byte>, d: seq<byte>, rest: seq<byte>)
    ensures FourAt(a + (b + (c + (d + rest))), 0, a, b, c, d)
  {
    var z := a + (b + (c + (d + rest)));
    assert z[|a|..] == b + (c + (d + rest));
    assert z[|a| + |b|..] == c + (d + rest);
    assert z[|a| + |b| + |c|..] == d + rest;
  }

  lemma FourBehind(h: seq<byte>, z: seq<byte>, i: nat, a: seq<byte>, b: seq<byte>, c: seq<byte>, d: seq<byte>)
    requires FourAt(z, i, a, b, c, d)
    ensures FourAt(h + z, |h| + i, a, b, c, d)
  {
    StandsBehind(h, z, i, a);
    StandsBehind(h, z, i + |a|, b);
    StandsBehind(h, z, i + |a| + |b|, c);
    StandsBehind(h, z, i + |a| + |b| + |c|, d);
  }

  /** Six parts one after the other, at the front. */
  ghost predicate SixAt(z: seq<byte>, a: seq<byte>, b: seq<byte>, c: seq<byte>, d: seq<byte>, e: seq<byte>, f: seq<byte>) {
    && FourAt(z, 0, a, b, c, d)
    && StandsAt(z, |a| + |b| + |c| + |d|, e) && StandsAt(z, |a| + |b| + |c| + |d| + |e|, f)
  }

  lemma SixParts(a: seq<byte>, b: seq<byte>, c: seq<byte>, d: seq<byte>, e: seq<byte>, f: seq<byte>, g: seq<byte>)
    ensures var z := a + (b + (c + (d + (e + (f + g)))));
            SixAt(z, a, b, c, d, e, f) && |z| == |a| + |b| + |c| + |d| + |e| + |f| + |g| && z[|z| - |g|..] == g
  {
    var z := a + (b + (c + (d + (e + (f + g)))));
    FourParts(a, b, c, d, e + (f + g));
    assert z[|a| + |b| + |c| + |d|..] == e + (f + g);
    assert z[|a| + |b| + |c| + |d| + |e|..] == f + g;
  }
}
