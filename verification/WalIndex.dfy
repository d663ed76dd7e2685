/** The segment files and the in-memory index of pkg/storage/wal.go, within one process lifetime:
    under appends, rotations, tail truncations and head compactions, reading an index gives exactly
    the entry a plain log would hold there. A file's write position is always its end. */
module WalIndex {
  import opened LogTypes
  import opened WalRecords

  const SEGMENT_SIZE: nat := 67_108_864

  datatype Segment = Segment(base: nat, file: seq<byte>)

  datatype IndexEntry = IndexEntry(base: nat, offset: nat)

  type Files = map<nat, seq<byte>>
  type Index = map<nat, IndexEntry>
  type Entries = map<nat, LogEntry>

  // ---------------------------------------------------------------------------
  // Segments as a list and as a map

  predicate Ascending(segs: seq<Segment>) {
    forall i, j :: 0 <= i < j < |segs| ==> segs[i].base < segs[j].base
  }

  function FilesOf(segs: seq<Segment>): Files {
    if segs == [] then map[] else FilesOf(segs[..|segs| - 1])[segs[|segs| - 1].base := segs[|segs| - 1].file]
  }

  lemma {:induction false} BaseFound(segs: seq<Segment>, b: nat) returns (i: nat)
    requires b in FilesOf(segs)
    ensures i < |segs| && segs[i].base == b
    decreases |segs|
  {
    if segs[|segs| - 1].base == b {
      i := |segs| - 1;
    } else {
      i := BaseFound(segs[..|segs| - 1], b);
    }
  }

  lemma {:induction false} FileAt(segs: seq<Segment>, i: nat)
    requires Ascending(segs) && i < |segs|
    ensures segs[i].base in FilesOf(segs) && FilesOf(segs)[segs[i].base] == segs[i].file
    decreases |segs|
  {
    if i < |segs| - 1 {
      FileAt(segs[..|segs| - 1], i);
    }
  }

  lemma FilesSnoc(segs: seq<Segment>, s: Segment)
    ensures FilesOf(segs + [s]) == FilesOf(segs)[s.base := s.file]
  {
    assert (segs + [s])[..|segs|] == segs;
  }

  function Without(segs: seq<Segment>, i: nat): seq<Segment>
    requires i < |segs|
  {
    segs[..i] + segs[i + 1..]
  }

  lemma WithoutAscends(segs: seq<Segment>, i: nat)
    requires Ascending(segs) && i < |segs|
    ensures Ascending(Without(segs, i))
  {
    var w := Without(segs, i);
    assert forall k :: 0 <= k < |w| ==> w[k] == if k < i then segs[k] else segs[k + 1];
  }

  lemma {:induction false} FilesWithout(segs: seq<Segment>, i: nat)
    requires Ascending(segs) && i < |segs|
    ensures FilesOf(Without(segs, i)) == FilesOf(segs) - {segs[i].base}
    decreases |segs|
  {
    var front, last := segs[..|segs| - 1], segs[|segs| - 1];
    if i == |segs| - 1 {
      assert Without(segs, i) == front;
      if last.base in FilesOf(front) {
        var k := BaseFound(front, last.base);
        assert false;
      }
    } else {
      FilesWithout(front, i);
      assert Without(segs, i) == Without(front, i) + [last];
      FilesSnoc(Without(front, i), last);
      assert front[i] == segs[i] && last.base != segs[i].base;
    }
  }

  // ---------------------------------------------------------------------------
  // The layout invariant

  function Length(e: LogEntry): nat {
    HEADER_SIZE + |e.data|
  }

  /** The record of idx lies whole in the segment the index names, and that segment owns idx. */
  ghost predicate Sits(crc: Checksum, files: Files, index: Index, live: Entries, idx: nat)
    requires idx in index && idx in live
  {
    var ie := index[idx];
    && ie.base in files && ie.base <= idx
    && Lies(crc, files[ie.base], ie.offset, live[idx])
    && (forall b :: b in files && ie.base < b ==> idx < b)
    && live[idx].index == idx && idx > 0 && Storable(live[idx])
  }

  /** Offsets rise with the index inside a segment, and records do not overlap. */
  ghost predicate Rising(index: Index, live: Entries) {
    forall a, b :: a in index && b in index && a in live && a < b && index[a].base == index[b].base ==>
      index[a].offset + Length(live[a]) <= index[b].offset
  }

  ghost predicate Layout(crc: Checksum, files: Files, index: Index, live: Entries) {
    && index.Keys == live.Keys
    && (forall idx :: idx in index ==> Sits(crc, files, index, live, idx))
    && Rising(index, live)
  }

  ghost predicate IsLast(live: Entries, last: nat) {
    && (forall idx :: idx in live ==> idx <= last)
    && (last in live || (last == 0 && live == map[]))
  }

  // ---------------------------------------------------------------------------
  // Appending

  lemma LiesInLonger(crc: Checksum, file: seq<byte>, more: seq<byte>, offset: nat, e: LogEntry)
    requires Lies(crc, file, offset, e)
    ensures Lies(crc, file + more, offset, e)
  {
    assert (file + more)[offset..offset + |Encode(crc, e)|] == file[offset..offset + |Encode(crc, e)|];
  }

  lemma LiesAtEnd(crc: Checksum, file: seq<byte>, e: LogEntry)
    ensures Lies(crc, file + Encode(crc, e), |file|, e)
  {
  }

  lemma OldSits(crc: Checksum, files: Files, index: Index, live: Entries, base: nat, e: LogEntry, idx: nat)
    requires idx in index && idx in live && Sits(crc, files, index, live, idx) && base in files && idx != e.index
    ensures Sits(crc, files[base := files[base] + Encode(crc, e)],
                 index[e.index := IndexEntry(base, |files[base]|)], live[e.index := e], idx)
  {
    if index[idx].base == base {
      LiesInLonger(crc, files[base], Encode(crc, e), index[idx].offset, live[idx]);
    }
  }

  lemma NewSits(crc: Checksum, files: Files, index: Index, live: Entries, base: nat, e: LogEntry)
    requires base in files && base <= e.index && e.index > 0 && Storable(e) && forall b :: b in files ==> b <= base
    ensures Sits(crc, files[base := files[base] + Encode(crc, e)],
                 index[e.index := IndexEntry(base, |files[base]|)], live[e.index := e], e.index)
  {
    LiesAtEnd(crc, files[base], e);
  }

  lemma AppendRises(crc: Checksum, files: Files, index: Index, live: Entries, base: nat, e: LogEntry)
    requires Layout(crc, files, index, live) && base in files && forall idx :: idx in live ==> idx < e.index
    ensures Rising(index[e.index := IndexEntry(base, |files[base]|)], live[e.index := e])
  {
    var index', live' := index[e.index := IndexEntry(base, |files[base]|)], live[e.index := e];
    forall a, b | a in index' && b in index' && a < b && index'[a].base == index'[b].base
      ensures index'[a].offset + Length(live'[a]) <= index'[b].offset {
      if b == e.index {
        assert Sits(crc, files, index, live, a);
      }
    }
  }

  /** Writing a record at the end of the newest segment, past every index so far. */
  lemma AppendLayout(crc: Checksum, files: Files, index: Index, live: Entries, base: nat, e: LogEntry)
    requires Layout(crc, files, index, live) && base in files && base <= e.index && e.index > 0 && Storable(e)
    requires forall b :: b in files ==> b <= base
    requires forall idx :: idx in live ==> idx < e.index
    ensures Layout(crc, files[base := files[base] + Encode(crc, e)],
                   index[e.index := IndexEntry(base, |files[base]|)], live[e.index := e])
  {
    var files' := files[base := files[base] + Encode(crc, e)];
    var index', live' := index[e.index := IndexEntry(base, |files[base]|)], live[e.index := e];
    forall idx | idx in index' ensures Sits(crc, files', index', live', idx) {
      if idx == e.index {
        NewSits(crc, files, index, live, base, e);
      } else {
        OldSits(crc, files, index, live, base, e, idx);
      }
    }
    AppendRises(crc, files, index, live, base, e);
  }

  /** A fresh segment above every index changes nothing. */
  lemma RotateLayout(crc: Checksum, files: Files, index: Index, live: Entries, base: nat)
    requires Layout(crc, files, index, live) && base !in files && forall idx :: idx in live ==> idx < base
    ensures Layout(crc, files[base := []], index, live)
  {
    forall idx | idx in index ensures Sits(crc, files[base := []], index, live, idx) {
      assert Sits(crc, files, index, live, idx);
    }
  }

  // ---------------------------------------------------------------------------
  // Deleting

  predicate InRange(idx: nat, min: nat, max: nat) {
    min <= idx <= max
  }

  function Kept<T>(m: map<nat, T>, min: nat, max: nat): map<nat, T> {
    map idx | idx in m && !InRange(idx, min, max) :: m[idx]
  }

  lemma DeleteLayout(crc: Checksum, files: Files, index: Index, live: Entries, min: nat, max: nat)
    requires Layout(crc, files, index, live)
    ensures Layout(crc, files, Kept(index, min, max), Kept(live, min, max))
  {
    forall idx | idx in Kept(index, min, max)
      ensures Sits(crc, files, Kept(index, min, max), Kept(live, min, max), idx) {
      assert Sits(crc, files, index, live, idx);
    }
  }

  /** A segment nothing is left in can go. */
  lemma DropLayout(crc: Checksum, files: Files, index: Index, live: Entries, base: nat)
    requires Layout(crc, files, index, live) && forall idx :: idx in index ==> index[idx].base != base
    ensures Layout(crc, files - {base}, index, live)
  {
    forall idx | idx in index ensures Sits(crc, files - {base}, index, live, idx) {
      assert Sits(crc, files, index, live, idx);
    }
  }

  lemma LiesInShorter(crc: Checksum, file: seq<byte>, n: nat, offset: nat, e: LogEntry)
    requires Lies(crc, file, offset, e) && offset + Length(e) <= n <= |file|
    ensures Lies(crc, file[..n], offset, e)
  {
    assert file[..n][offset..offset + |Encode(crc, e)|] == file[offset..offset + |Encode(crc, e)|];
  }

  /** Cutting a segment off behind the last record kept in it destroys none of them. */
  lemma CutLayout(crc: Checksum, files: Files, index: Index, live: Entries, base: nat, n: nat)
    requires Layout(crc, files, index, live) && base in files && n <= |files[base]|
    requires forall idx :: idx in index && index[idx].base == base ==> index[idx].offset + Length(live[idx]) <= n
    ensures Layout(crc, files[base := files[base][..n]], index, live)
  {
    var files' := files[base := files[base][..n]];
    forall idx | idx in index ensures Sits(crc, files', index, live, idx) {
      assert Sits(crc, files, index, live, idx);
      if index[idx].base == base {
        LiesInShorter(crc, files[base], n, index[idx].offset, live[idx]);
      }
    }
  }

  /** Reading at an index entry gives the live entry. */
  lemma ReadsLive(crc: Checksum, files: Files, index: Index, live: Entries, idx: nat)
    requires Layout(crc, files, index, live) && idx in index
    ensures var ie := index[idx];
            ie.base in files && ReadAt(crc, files[ie.base], ie.offset) == Record(live[idx])
  {
    assert Sits(crc, files, index, live, idx);
    RecordRoundTrip(crc, files[index[idx].base], index[idx].offset, live[idx]);
  }

  // ---------------------------------------------------------------------------
  // The invariant of the whole log, folded (as RaftRefinement folds its own) until a proof calls Open

  ghost predicate Sealed(seal: bool, crc: Checksum, segs: seq<Segment>, index: Index, live: Entries) {
    seal ==> Ascending(segs) && Layout(crc, FilesOf(segs), index, live)
  }

  ghost predicate Sound(crc: Checksum, segs: seq<Segment>, index: Index, live: Entries) {
    forall seal: bool :: Sealed(seal, crc, segs, index, live)
  }

  lemma Open(crc: Checksum, segs: seq<Segment>, index: Index, live: Entries)
    requires Sound(crc, segs, index, live)
    ensures Ascending(segs) && Layout(crc, FilesOf(segs), index, live)
  {
    assert Sealed(true, crc, segs, index, live);
  }

  lemma NewestBase(segs: seq<Segment>)
    requires Ascending(segs) && segs != []
    ensures forall b :: b in FilesOf(segs) ==> b <= segs[|segs| - 1].base
  {
    forall b | b in FilesOf(segs) ensures b <= segs[|segs| - 1].base {
      var i := BaseFound(segs, b);
    }
  }

  function WithLast(segs: seq<Segment>, file: seq<byte>): seq<Segment>
    requires segs != []
  {
    segs[..|segs| - 1] + [Segment(segs[|segs| - 1].base, file)]
  }

  lemma WithLastAscends(segs: seq<Segment>, file: seq<byte>)
    requires Ascending(segs) && segs != []
    ensures Ascending(WithLast(segs, file))
  {
    var t := WithLast(segs, file);
    assert |t| == |segs| && forall i :: 0 <= i < |t| ==> t[i].base == segs[i].base;
  }

  lemma FilesOverwrite(front: seq<Segment>, last: Segment, file: seq<byte>)
    ensures FilesOf(front + [Segment(last.base, file)]) == FilesOf(front + [last])[last.base := file]
  {
    FilesSnoc(front, last);
    FilesSnoc(front, Segment(last.base, file));
  }

  lemma WithLastOf(front: seq<Segment>, last: Segment, file: seq<byte>)
    ensures WithLast(front + [last], file) == front + [Segment(last.base, file)]
  {
    assert (front + [last])[..|front|] == front;
  }

  lemma OverwriteLast(front: seq<Segment>, last: Segment, file: seq<byte>)
    ensures FilesOf(WithLast(front + [last], file)) == FilesOf(front + [last])[last.base := file]
  {
    WithLastOf(front, last, file);
    FilesOverwrite(front, last, file);
  }

  lemma ReplaceLast(segs: seq<Segment>, file: seq<byte>)
    requires segs != []
    ensures FilesOf(WithLast(segs, file)) == FilesOf(segs)[segs[|segs| - 1].base := file]
  {
    var front, last := segs[..|segs| - 1], segs[|segs| - 1];
    assert front + [last] == segs;
    OverwriteLast(front, last, file);
  }

  lemma AppendSound(crc: Checksum, segs: seq<Segment>, index: Index, live: Entries, e: LogEntry)
    requires Sound(crc, segs, index, live) && segs != [] && Storable(e) && e.index > 0
    requires segs[|segs| - 1].base <= e.index && forall idx :: idx in live ==> idx < e.index
    ensures var cur := segs[|segs| - 1];
            Sound(crc, WithLast(segs, cur.file + Encode(crc, e)), index[e.index := IndexEntry(cur.base, |cur.file|)],
                  live[e.index := e])
  {
    var cur := segs[|segs| - 1];
    Open(crc, segs, index, live);
    FileAt(segs, |segs| - 1);
    NewestBase(segs);
    AppendLayout(crc, FilesOf(segs), index, live, cur.base, e);
    WithLastAscends(segs, cur.file + Encode(crc, e));
    ReplaceLast(segs, cur.file + Encode(crc, e));
  }

  lemma RotateAscends(segs: seq<Segment>, base: nat)
    requires Ascending(segs) && (segs == [] || segs[|segs| - 1].base < base)
    ensures Ascending(segs + [Segment(base, [])]) && base !in FilesOf(segs)
  {
    if segs != [] {
      NewestBase(segs);
    }
  }

  lemma RotateFiles(crc: Checksum, segs: seq<Segment>, index: Index, live: Entries, base: nat)
    requires Layout(crc, FilesOf(segs), index, live) && base !in FilesOf(segs) && forall idx :: idx in live ==> idx < base
    ensures Layout(crc, FilesOf(segs + [Segment(base, [])]), index, live)
  {
    FilesSnoc(segs, Segment(base, []));
    RotateLayout(crc, FilesOf(segs), index, live, base);
  }

  lemma RotateSound(crc: Checksum, segs: seq<Segment>, index: Index, live: Entries, base: nat)
    requires Sound(crc, segs, index, live) && (segs == [] || segs[|segs| - 1].base < base)
    requires forall idx :: idx in live ==> idx < base
    ensures Sound(crc, segs + [Segment(base, [])], index, live)
  {
    Open(crc, segs, index, live);
    RotateAscends(segs, base);
    RotateFiles(crc, segs, index, live, base);
  }

  lemma DropSound(crc: Checksum, segs: seq<Segment>, index: Index, live: Entries, i: nat)
    requires Sound(crc, segs, index, live) && i < |segs|
    requires forall idx :: idx in index ==> index[idx].base != segs[i].base
    ensures Sound(crc, Without(segs, i), index, live)
  {
    Open(crc, segs, index, live);
    WithoutAscends(segs, i);
    FilesWithout(segs, i);
    DropLayout(crc, FilesOf(segs), index, live, segs[i].base);
  }

  lemma DeleteSound(crc: Checksum, segs: seq<Segment>, index: Index, live: Entries, min: nat, max: nat)
    requires Sound(crc, segs, index, live)
    ensures Sound(crc, segs, Kept(index, min, max), Kept(live, min, max))
  {
    Open(crc, segs, index, live);
    DeleteLayout(crc, FilesOf(segs), index, live, min, max);
  }

  /** Where truncating the last segment from index min on may cut. */
  ghost predicate CutPoint(index: Index, base: nat, min: nat, n: nat) {
    && (exists idx :: idx in index && idx >= min && index[idx].base == base && index[idx].offset == n)
    && (forall idx :: idx in index && idx >= min && index[idx].base == base ==> n <= index[idx].offset)
  }

  lemma CutKeeps(crc: Checksum, files: Files, index: Index, live: Entries, base: nat, min: nat, max: nat, n: nat)
    requires Layout(crc, files, index, live) && base in files && (forall idx :: idx in live ==> idx <= max)
    requires CutPoint(index, base, min, n)
    ensures n <= |files[base]|
    ensures Layout(crc, files[base := files[base][..n]], Kept(index, min, max), Kept(live, min, max))
  {
    var first :| first in index && first >= min && index[first].base == base && index[first].offset == n;
    assert Sits(crc, files, index, live, first);
    DeleteLayout(crc, files, index, live, min, max);
    CutLayout(crc, files, Kept(index, min, max), Kept(live, min, max), base, n);
  }

  lemma CutSound(crc: Checksum, segs: seq<Segment>, index: Index, live: Entries, min: nat, max: nat, n: nat)
    requires Sound(crc, segs, index, live) && segs != [] && (forall idx :: idx in live ==> idx <= max)
    requires CutPoint(index, segs[|segs| - 1].base, min, n)
    ensures n <= |segs[|segs| - 1].file|
    ensures Sound(crc, WithLast(segs, segs[|segs| - 1].file[..n]), Kept(index, min, max), Kept(live, min, max))
  {
    var cur := segs[|segs| - 1];
    Open(crc, segs, index, live);
    FileAt(segs, |segs| - 1);
    CutKeeps(crc, FilesOf(segs), index, live, cur.base, min, max, n);
    WithLastAscends(segs, cur.file[..n]);
    ReplaceLast(segs, cur.file[..n]);
  }
}
