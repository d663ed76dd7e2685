/** Rebuilding the index of a segment after a crash (pkg/storage/wal.go:198-286): scan the records,
    and where one is corrupt at the end of the log tell a torn tail from damage in the middle. */
module WalRecovery {
  import opened LogTypes
  import opened WalRecords

  /** An index entry: a record and where it starts. */
  datatype Found = Found(offset: nat, entry: LogEntry)

  datatype Recovery =
    | Opened(index: seq<Found>, file: seq<byte>)
    | MidSegmentCorruption
    | CorruptLog

  datatype Scan = Scan(found: seq<Found>, stop: nat, corrupt: bool)

  function After(offset: nat, e: LogEntry): nat {
    offset + HEADER_SIZE + |e.data|
  }

  /** All records from an offset on, up to the first position that does not read as one. */
  function ScanFrom(crc: Checksum, file: seq<byte>, offset: nat): Scan
    requires offset <= |file|
    decreases |file| - offset
  {
    match ReadAt(crc, file, offset)
    case End => Scan([], offset, false)
    case Corrupt => Scan([], offset, true)
    case Record(e) =>
      var rest := ScanFrom(crc, file, After(offset, e));
      Scan([Found(offset, e)] + rest.found, rest.stop, rest.corrupt)
  }

  predicate RecordAt(crc: Checksum, file: seq<byte>, pos: nat) {
    ReadAt(crc, file, pos).Record?
  }

  /** Some position past the failure reads as a record. */
  predicate Survivor(crc: Checksum, file: seq<byte>, fail: nat) {
    exists pos :: fail < pos < |file| && RecordAt(crc, file, pos)
  }

  function Recover(crc: Checksum, file: seq<byte>, isLast: bool): Recovery {
    var s := ScanFrom(crc, file, 0);
    if !s.corrupt then Opened(s.found, file)
    else if !isLast then CorruptLog
    else if Survivor(crc, file, s.stop) then MidSegmentCorruption
    else Opened(s.found, if s.stop <= |file| then file[..s.stop] else file)
  }

  // ---------------------------------------------------------------------------
  // The loops

  method ProbeForward(crc: Checksum, file: seq<byte>, fail: nat) returns (found: bool)
    ensures found <==> Survivor(crc, file, fail)
  {
    var pos := fail + 1;
    while pos + HEADER_SIZE <= |file|
      invariant fail < pos
      invariant forall q :: fail < q < pos ==> !RecordAt(crc, file, q)
      decreases |file| - pos
    {
      var r := ReadAt(crc, file, pos);
      if r.Record? {
        assert RecordAt(crc, file, pos);
        return true;
      }
      assert !RecordAt(crc, file, pos);
      pos := pos + 1;
    }
    return false;
  }

  method RebuildIndex(crc: Checksum, file: seq<byte>, isLast: bool) returns (r: Recovery)
    ensures r == Recover(crc, file, isLast)
  {
    var index, offset := [], 0;
    ghost var all := ScanFrom(crc, file, 0);
    while true
      invariant 0 <= offset <= |file|
      invariant var rest := ScanFrom(crc, file, offset);
                all == Scan(index + rest.found, rest.stop, rest.corrupt)
      decreases |file| - offset
    {
      var rec := ReadAt(crc, file, offset);
      if rec.End? {
        assert index + [] == index;
        return Opened(index, file);
      }
      if rec.Corrupt? {
        assert index + [] == index;
        if !isLast {
          return CorruptLog;
        }
        var survivor := ProbeForward(crc, file, offset);
        if survivor {
          return MidSegmentCorruption;
        }
        return Opened(index, file[..offset]);
      }
      var rest := After(offset, rec.entry);
      assert index + ([Found(offset, rec.entry)] + ScanFrom(crc, file, rest).found)
          == index + [Found(offset, rec.entry)] + ScanFrom(crc, file, rest).found;
      index := index + [Found(offset, rec.entry)];
      offset := rest;
    }
  }

  // ---------------------------------------------------------------------------
  // Torn tails

  function EncodeAll(crc: Checksum, es: seq<LogEntry>): seq<byte> {
    if es == [] then [] else Encode(crc, es[0]) + EncodeAll(crc, es[1..])
  }

  /** The records as the index lists them when the first one starts at `offset`. */
  function Placed(es: seq<LogEntry>, offset: nat): seq<Found> {
    if es == [] then [] else [Found(offset, es[0])] + Placed(es[1..], After(offset, es[0]))
  }

  /** How many whole records fit into n bytes. */
  function Whole(crc: Checksum, es: seq<LogEntry>, n: nat): (k: nat)
    ensures k <= |es|
  {
    if es == [] || |Encode(crc, es[0])| > n then 0
    else 1 + Whole(crc, es[1..], n - |Encode(crc, es[0])|)
  }

  /** The bytes those whole records take. */
  function WholeBytes(crc: Checksum, es: seq<LogEntry>, n: nat): (m: nat)
    ensures m <= n
  {
    if es == [] || |Encode(crc, es[0])| > n then 0
    else |Encode(crc, es[0])| + WholeBytes(crc, es[1..], n - |Encode(crc, es[0])|)
  }

  ghost predicate AllStorable(es: seq<LogEntry>) {
    forall i :: 0 <= i < |es| ==> Storable(es[i])
  }

  /** From the offset on, the file is the first n bytes of the encoded records. */
  ghost predicate Holds(crc: Checksum, file: seq<byte>, offset: nat, es: seq<LogEntry>, n: nat) {
    n <= |EncodeAll(crc, es)| && |file| == offset + n && file[offset..] == EncodeAll(crc, es)[..n]
  }

  lemma SlicePrefix(file: seq<byte>, offset: nat, first: seq<byte>, tail: seq<byte>, n: nat)
    requires |first| <= n <= |first| + |tail| && |file| == offset + n && file[offset..] == (first + tail)[..n]
    ensures file[offset..offset + |first|] == first
    ensures file[offset + |first|..] == tail[..n - |first|]
  {
    assert file[offset..offset + |first|] == file[offset..][..|first|];
    assert file[offset + |first|..] == file[offset..][|first|..];
  }

  lemma FirstWhole(crc: Checksum, file: seq<byte>, offset: nat, es: seq<LogEntry>, n: nat)
    requires es != [] && Storable(es[0]) && |Encode(crc, es[0])| <= n && Holds(crc, file, offset, es, n)
    ensures ReadAt(crc, file, offset) == Record(es[0])
    ensures Holds(crc, file, After(offset, es[0]), es[1..], n - |Encode(crc, es[0])|)
  {
    SlicePrefix(file, offset, Encode(crc, es[0]), EncodeAll(crc, es[1..]), n);
    RecordRoundTrip(crc, file, offset, es[0]);
  }

  lemma FirstTorn(crc: Checksum, file: seq<byte>, offset: nat, es: seq<LogEntry>, n: nat)
    requires es != [] && Storable(es[0]) && n < |Encode(crc, es[0])| && Holds(crc, file, offset, es, n)
    ensures ReadAt(crc, file, offset) == if n < HEADER_SIZE then End else Corrupt
  {
    assert file[offset..] == Encode(crc, es[0])[..n];
    TornRecord(crc, file, offset, es[0]);
  }

  lemma WholeCounts(crc: Checksum, es: seq<LogEntry>, n: nat, offset: nat)
    requires es != [] && |Encode(crc, es[0])| <= n
    ensures var m := n - |Encode(crc, es[0])|;
            && WholeBytes(crc, es, n) == |Encode(crc, es[0])| + WholeBytes(crc, es[1..], m)
            && Placed(es[..Whole(crc, es, n)], offset)
                 == [Found(offset, es[0])] + Placed(es[1..][..Whole(crc, es[1..], m)], After(offset, es[0]))
  {
    var k := Whole(crc, es[1..], n - |Encode(crc, es[0])|);
    assert es[..1 + k][0] == es[0] && es[..1 + k][1..] == es[1..][..k];
  }

  /** Scanning a prefix of encoded records finds exactly the whole ones, and stops as corrupt
      exactly when a whole header is left over. */
  lemma {:induction false} ScanPrefix(crc: Checksum, file: seq<byte>, offset: nat, es: seq<LogEntry>, n: nat)
    requires AllStorable(es) && Holds(crc, file, offset, es, n)
    ensures ScanFrom(crc, file, offset) ==
              Scan(Placed(es[..Whole(crc, es, n)], offset), offset + WholeBytes(crc, es, n),
                   n - WholeBytes(crc, es, n) >= HEADER_SIZE)
    decreases |es|
  {
    if es != [] {
      if |Encode(crc, es[0])| > n {
        FirstTorn(crc, file, offset, es, n);
        assert es[..0] == [];
      } else {
        FirstWhole(crc, file, offset, es, n);
        ScanPrefix(crc, file, After(offset, es[0]), es[1..], n - |Encode(crc, es[0])|);
        WholeCounts(crc, es, n, offset);
      }
    }
  }

  /** Torn-tail recovery: when the last segment is any byte prefix of encoded records, recovery
      indexes exactly the records wholly inside it, or refuses. It refuses exactly when a whole
      header is left over and a valid record starts inside the torn bytes; otherwise it cuts the
      torn bytes off, except that less than a header's worth stays in the file. */
  lemma TornTailRecovery(crc: Checksum, es: seq<LogEntry>, n: nat)
    requires AllStorable(es) && n <= |EncodeAll(crc, es)|
    ensures var file := EncodeAll(crc, es)[..n];
            var stop := WholeBytes(crc, es, n);
            var index := Placed(es[..Whole(crc, es, n)], 0);
            Recover(crc, file, true) ==
              if n - stop < HEADER_SIZE then Opened(index, file)
              else if Survivor(crc, file, stop) then MidSegmentCorruption
              else Opened(index, file[..stop])
  {
    ScanPrefix(crc, EncodeAll(crc, es)[..n], 0, es, n);
  }

  /** A segment whose writes all completed opens with every record, whatever the checksum. */
  lemma CleanRecovery(crc: Checksum, es: seq<LogEntry>, isLast: bool)
    requires AllStorable(es)
    ensures Recover(crc, EncodeAll(crc, es), isLast) == Opened(Placed(es, 0), EncodeAll(crc, es))
  {
    var n := |EncodeAll(crc, es)|;
    AllWhole(crc, es);
    ScanPrefix(crc, EncodeAll(crc, es), 0, es, n);
    assert es[..|es|] == es;
  }

  lemma {:induction false} AllWhole(crc: Checksum, es: seq<LogEntry>)
    ensures Whole(crc, es, |EncodeAll(crc, es)|) == |es|
    ensures WholeBytes(crc, es, |EncodeAll(crc, es)|) == |EncodeAll(crc, es)|
  {
    if es != [] {
      AllWhole(crc, es[1..]);
    }
  }

  lemma {:induction false} WholeBytesAre(crc: Checksum, es: seq<LogEntry>, n: nat)
    requires n <= |EncodeAll(crc, es)|
    ensures EncodeAll(crc, es)[..WholeBytes(crc, es, n)] == EncodeAll(crc, es[..Whole(crc, es, n)])
    decreases |es|
  {
    if es != [] && |Encode(crc, es[0])| <= n {
      var first, rest := Encode(crc, es[0]), es[1..];
      WholeBytesAre(crc, rest, n - |first|);
      var k := Whole(crc, es, n);
      assert es[..k][1..] == rest[..k - 1];
      assert EncodeAll(crc, es)[..WholeBytes(crc, es, n)]
          == first + EncodeAll(crc, rest)[..WholeBytes(crc, rest, n - |first|)];
    } else {
      assert es[..0] == [];
    }
  }

  /** Once the torn bytes are cut off, opening the segment again gives the same index and leaves
      the file alone. */
  lemma RecoveryIsStable(crc: Checksum, es: seq<LogEntry>, n: nat)
    requires AllStorable(es) && n <= |EncodeAll(crc, es)|
    ensures var kept := EncodeAll(crc, es)[..WholeBytes(crc, es, n)];
            Recover(crc, kept, true) == Opened(Placed(es[..Whole(crc, es, n)], 0), kept)
  {
    WholeBytesAre(crc, es, n);
    CleanRecovery(crc, es[..Whole(crc, es, n)], true);
  }
}
