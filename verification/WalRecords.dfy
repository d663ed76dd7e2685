/** The record format of pkg/storage/wal.go: a 25-byte header and the entry data, guarded by a
    checksum whose arithmetic is left abstract. */
module WalRecords {
  import opened LogTypes

  const HEADER_SIZE: nat := 25

  type Word32 = n: int | 0 <= n < 0x1_0000_0000

  type Checksum = seq<byte> -> Word32

  // ---------------------------------------------------------------------------
  // Big-endian numbers

  function Pow256(k: nat): nat {
    if k == 0 then 1 else 256 * Pow256(k - 1)
  }

  function BigEndian(n: nat, width: nat): (b: seq<byte>)
    ensures |b| == width
  {
    if width == 0 then [] else BigEndian(n / 256, width - 1) + [(n % 256) as byte]
  }

  function FromBigEndian(b: seq<byte>): nat {
    if b == [] then 0 else 256 * FromBigEndian(b[..|b| - 1]) + b[|b| - 1] as nat
  }

  lemma {:induction false} BigEndianRoundTrip(n: nat, width: nat)
    requires n < Pow256(width)
    ensures FromBigEndian(BigEndian(n, width)) == n
    decreases width
  {
    if width > 0 {
      var b := BigEndian(n, width);
      BigEndianRoundTrip(n / 256, width - 1);
      assert b[..|b| - 1] == BigEndian(n / 256, width - 1);
    }
  }

  lemma Widths()
    ensures Pow256(4) == 0x1_0000_0000 && Pow256(8) == 0x1_0000_0000_0000_0000
  {
    assert Pow256(1) == 256;
    assert Pow256(2) == 0x1_0000;
    assert Pow256(3) == 0x100_0000;
    assert Pow256(4) == 0x1_0000_0000;
    assert Pow256(5) == 0x100_0000_0000;
    assert Pow256(6) == 0x1_0000_0000_0000;
    assert Pow256(7) == 0x100_0000_0000_0000;
  }

  // ---------------------------------------------------------------------------
  // Encoding

  /** Entries the format can hold: 64-bit numbers, and data whose length plus 9 is a 32-bit number. */
  predicate Storable(e: LogEntry) {
    e.term < 0x1_0000_0000_0000_0000 && e.index < 0x1_0000_0000_0000_0000 && |e.data| + 9 < 0x1_0000_0000
  }

  /** Everything the checksum covers. */
  function Body(e: LogEntry): (b: seq<byte>)
    ensures |b| == HEADER_SIZE - 4 + |e.data|
  {
    BigEndian(|e.data| + 9, 4) + [e.kind] + BigEndian(e.term, 8) + BigEndian(e.index, 8) + e.data
  }

  function Encode(crc: Checksum, e: LogEntry): (b: seq<byte>)
    ensures |b| == HEADER_SIZE + |e.data|
  {
    BigEndian(crc(Body(e)), 4) + Body(e)
  }

  // ---------------------------------------------------------------------------
  // Decoding

  /** What reading a record at a position of a file of known size comes to. A header cut short by
      the end of the file reads as the end of the file. */
  datatype Read = End | Corrupt | Record(entry: LogEntry)

  function DataLength(header: seq<byte>): int
    requires |header| == HEADER_SIZE
  {
    FromBigEndian(header[4..8]) - 9
  }

  function ReadAt(crc: Checksum, file: seq<byte>, offset: nat): Read {
    if offset + HEADER_SIZE > |file| then End
    else
      var header := file[offset..offset + HEADER_SIZE];
      var length := DataLength(header);
      if length < 0 || length > |file| - (offset + HEADER_SIZE) then Corrupt
      else Decode(crc, header, file[offset + HEADER_SIZE..offset + HEADER_SIZE + length])
  }

  function Decode(crc: Checksum, header: seq<byte>, data: seq<byte>): Read
    requires |header| == HEADER_SIZE
  {
    if crc(header[4..] + data) != FromBigEndian(header[..4]) then Corrupt
    else Record(LogEntry(FromBigEndian(header[9..17]), FromBigEndian(header[17..25]), header[8], data))
  }

  /** The bytes of a whole record lie at the offset. */
  ghost predicate Lies(crc: Checksum, file: seq<byte>, offset: nat, e: LogEntry) {
    offset + |Encode(crc, e)| <= |file| && file[offset..offset + |Encode(crc, e)|] == Encode(crc, e)
  }

  lemma HeaderFields(crc: Checksum, e: LogEntry)
    ensures var b := Encode(crc, e);
            && b[..4] == BigEndian(crc(Body(e)), 4) && b[4..] == Body(e)
            && b[4..8] == BigEndian(|e.data| + 9, 4) && b[8] == e.kind
            && b[9..17] == BigEndian(e.term, 8) && b[17..25] == BigEndian(e.index, 8) && b[25..] == e.data
  {
  }

  lemma HeaderDecodes(crc: Checksum, e: LogEntry)
    requires Storable(e)
    ensures var header := Encode(crc, e)[..HEADER_SIZE];
            DataLength(header) == |e.data| && Decode(crc, header, e.data) == Record(e)
  {
    var b := Encode(crc, e);
    var header := b[..HEADER_SIZE];
    HeaderFields(crc, e);
    Widths();
    BigEndianRoundTrip(|e.data| + 9, 4);
    BigEndianRoundTrip(e.term, 8);
    BigEndianRoundTrip(e.index, 8);
    BigEndianRoundTrip(crc(Body(e)), 4);
    assert header[4..8] == b[4..8] && header[..4] == b[..4];
    assert header[9..17] == b[9..17] && header[17..25] == b[17..25];
    assert header[4..] + e.data == b[4..];
  }

  /** A record reads back as the entry it encodes, wherever it lies and whatever surrounds it. */
  lemma RecordRoundTrip(crc: Checksum, file: seq<byte>, offset: nat, e: LogEntry)
    requires Storable(e) && Lies(crc, file, offset, e)
    ensures ReadAt(crc, file, offset) == Record(e)
  {
    var b := Encode(crc, e);
    HeaderFields(crc, e);
    HeaderDecodes(crc, e);
    assert file[offset..offset + HEADER_SIZE] == file[offset..offset + |b|][..HEADER_SIZE];
    assert file[offset + HEADER_SIZE..offset + |b|] == file[offset..offset + |b|][HEADER_SIZE..];
  }

  /** A record cut short reads as the end of the file when not even its header is whole, and as
      corrupt otherwise: never as a record. */
  lemma TornRecord(crc: Checksum, file: seq<byte>, offset: nat, e: LogEntry)
    requires Storable(e) && offset <= |file| < offset + |Encode(crc, e)|
    requires file[offset..] <= Encode(crc, e)
    ensures ReadAt(crc, file, offset) == if |file| - offset < HEADER_SIZE then End else Corrupt
  {
    if |file| - offset >= HEADER_SIZE {
      HeaderDecodes(crc, e);
      assert file[offset..offset + HEADER_SIZE] == file[offset..][..HEADER_SIZE] == Encode(crc, e)[..HEADER_SIZE];
    }
  }

  // ---------------------------------------------------------------------------
  // The bytes

  /** The number the bytes stand for, each weighed by its place, the first one most. */
  function Weigh(b: seq<byte>): nat {
    if b == [] then 0 else b[0] as nat * Pow256(|b| - 1) + Weigh(b[1..])
  }

  lemma {:induction false} WeighLast(b: seq<byte>, x: byte)
    ensures Weigh(b + [x]) == 256 * Weigh(b) + x as nat
    decreases |b|
  {
    if b == [] {
      assert b + [x] == [x] && [x][1..] == [];
      assert Pow256(0) == 1;
    } else {
      WeighLast(b[1..], x);
      assert (b + [x])[1..] == b[1..] + [x];
      Shift(b[0] as nat, Pow256(|b| - 1), Weigh(b[1..]), x as nat);
    }
  }

  lemma Shift(d: nat, p: nat, w: nat, x: nat)
    ensures d * (256 * p) + (256 * w + x) == 256 * (d * p + w) + x
  {
  }

  /** The bytes of a number, the most significant first. */
  lemma {:induction false} BigEndianLayout(n: nat, width: nat)
    requires n < Pow256(width)
    ensures Weigh(BigEndian(n, width)) == n
    decreases width
  {
    if width > 0 {
      BigEndianLayout(n / 256, width - 1);
      WeighLast(BigEndian(n / 256, width - 1), (n % 256) as byte);
    }
  }

  /** The record by position: the checksum of everything behind it, the length of the data plus 9, the
      type, the term, the index, and the data. */
  lemma RecordLayout(crc: Checksum, e: LogEntry)
    ensures var b := Encode(crc, e);
            && b[..4] == BigEndian(crc(b[4..]), 4) && b[4..8] == BigEndian(|e.data| + 9, 4)
            && b[8] == e.kind && b[9..17] == BigEndian(e.term, 8) && b[17..25] == BigEndian(e.index, 8) && b[25..] == e.data
  {
    assert Encode(crc, e)[4..] == Body(e);
  }
}
