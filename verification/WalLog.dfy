/** The WAL object of pkg/storage/wal.go over the layout of WalIndex. `live` is the plain log it
    stands for, and appends may continue at any index from `next` on. */
module WalLog {
  import opened LogTypes
  import opened WalRecords
  import opened WalIndex

  class WAL {
    const crc: Checksum
    var segments: seq<Segment>
    var index: Index
    var lastIndex: nat
    ghost var live: Entries
    ghost var next: nat

    ghost predicate Valid()
      reads this
    {
      && Sound(crc, segments, index, live)
      && segments != [] && segments[|segments| - 1].base <= next
      && IsLast(live, lastIndex) && lastIndex < next
    }

    constructor (crc: Checksum)
      ensures Valid() && live == map[] && next == 1 && this.crc == crc
    {
      this.crc := crc;
      segments, index, lastIndex := [Segment(0, [])], map[], 0;
      live, next := map[], 1;
    }

    // -------------------------------------------------------------------------
    // Appending

    /** One record at the end of the current segment, and a new segment once that is full. */
    method AppendEntry(e: LogEntry)
      requires Valid() && e.index >= next && Storable(e)
      modifies this
      ensures Valid() && live == old(live)[e.index := e] && next == e.index + 1
      ensures segments == Grown(crc, old(segments), e)
    {
      var cur := segments[|segments| - 1];
      var offset := |cur.file|;
      AppendSound(crc, segments, index, live, e);
      segments := WithLast(segments, cur.file + Encode(crc, e));
      lastIndex := e.index;
      index := index[e.index := IndexEntry(cur.base, offset)];
      live, next := live[e.index := e], e.index + 1;
      if |cur.file + Encode(crc, e)| >= SEGMENT_SIZE {
        Rotate();
      }
    }

    /** Append: a batch of consecutive entries, one record after the other. */
    method Append(entries: seq<LogEntry>)
      requires Valid() && (forall i :: 0 <= i < |entries| ==> Storable(entries[i]))
      requires entries != [] ==> entries[0].index >= next && Numbered(entries, entries[0].index)
      modifies this
      ensures Valid() && live == Extended(old(live), entries)
      ensures next == if entries == [] then old(next) else entries[0].index + |entries|
    {
      for i := 0 to |entries|
        invariant Valid() && live == Extended(old(live), entries[..i])
        invariant next == if i == 0 then old(next) else entries[0].index + i
      {
        assert entries[..i + 1][..i] == entries[..i];
        AppendEntry(entries[i]);
      }
      assert entries[..|entries|] == entries;
    }

    method Rotate()
      requires Valid() && lastIndex + 1 == next && segments[|segments| - 1].base <= lastIndex
      modifies this`segments
      ensures Valid() && segments == old(segments) + [Segment(next, [])]
    {
      RotateSound(crc, segments, index, live, lastIndex + 1);
      segments := segments + [Segment(lastIndex + 1, [])];
    }

    // -------------------------------------------------------------------------
    // Reading

    method SegmentByBase(base: nat) returns (seg: Option<Segment>)
      requires Ascending(segments)
      ensures seg == if base in FilesOf(segments) then Some(Segment(base, FilesOf(segments)[base])) else None
    {
      for i := 0 to |segments|
        invariant forall j :: 0 <= j < i ==> segments[j].base != base
      {
        if segments[i].base == base {
          FileAt(segments, i);
          return Some(segments[i]);
        }
      }
      if base in FilesOf(segments) {
        ghost var i := BaseFound(segments, base);
        assert false;
      }
      return None;
    }

    /** The base of the next segment up, if there is one. */
    method UpperBound(base: nat) returns (bound: Option<nat>)
      ensures bound.Some? ==> bound.value > base && exists i :: 0 <= i < |segments| && segments[i].base == bound.value
      ensures forall i :: 0 <= i < |segments| && segments[i].base > base ==> bound.Some? && bound.value <= segments[i].base
    {
      bound := None;
      for i := 0 to |segments|
        invariant bound.Some? ==> bound.value > base && exists j :: 0 <= j < i && segments[j].base == bound.value
        invariant forall j :: 0 <= j < i && segments[j].base > base ==> bound.Some? && bound.value <= segments[j].base
      {
        if segments[i].base > base && (bound.None? || segments[i].base < bound.value) {
          bound := Some(segments[i].base);
        }
      }
    }

    /** Get: exactly the live entry, or not found. */
    method Get(idx: nat) returns (r: Option<LogEntry>)
      requires Valid()
      ensures r == if idx in live then Some(live[idx]) else None
    {
      WalIndex.Open(crc, segments, index, live);
      if idx == 0 || idx > lastIndex {
        return None;
      }
      if idx !in index {
        return None;
      }
      var ie := index[idx];
      ReadsLive(crc, FilesOf(segments), index, live, idx);
      assert Sits(crc, FilesOf(segments), index, live, idx);
      var seg := SegmentByBase(ie.base);
      var bound := UpperBound(ie.base);
      if bound.Some? {
        ghost var i :| 0 <= i < |segments| && segments[i].base == bound.value;
        FileAt(segments, i);
      }
      if seg.None? || idx < seg.value.base || (bound.Some? && idx >= bound.value) {
        return None;
      }
      var rec := ReadAt(crc, seg.value.file, ie.offset);
      if !rec.Record? {
        return None;
      }
      return Some(rec.entry);
    }

    // -------------------------------------------------------------------------
    // Deleting

    /** segmentEntryCount: every index at or above the base counts, whichever segment it is in. */
    method EntryCount(base: nat) returns (count: nat)
      ensures count == |From(index.Keys, base)|
    {
      count := 0;
      var todo := index.Keys;
      ghost var all := index.Keys;
      while todo != {}
        invariant todo <= all && count + |From(todo, base)| == |From(all, base)|
        decreases todo
      {
        var idx :| idx in todo;
        FromLess(todo, base, idx);
        todo := todo - {idx};
        if idx >= base {
          count := count + 1;
        }
      }
    }

    /** segmentIndexBounds: the least and greatest index a segment owns. */
    method Bounds(base: nat) returns (r: Option<(nat, nat)>)
      ensures r.None? ==> forall idx :: idx in index ==> index[idx].base != base
      ensures r.Some? ==>
                && r.value.0 in index && index[r.value.0].base == base && r.value.1 in index && index[r.value.1].base == base
                && forall idx :: idx in index && index[idx].base == base ==> r.value.0 <= idx <= r.value.1
    {
      r := None;
      var todo := index.Keys;
      while todo != {}
        invariant todo <= index.Keys
        invariant r.None? ==> forall idx :: idx in index && idx !in todo ==> index[idx].base != base
        invariant r.Some? ==>
                    && r.value.0 in index && index[r.value.0].base == base && r.value.1 in index && index[r.value.1].base == base
                    && forall idx :: idx in index && idx !in todo && index[idx].base == base ==> r.value.0 <= idx <= r.value.1
        decreases todo
      {
        var idx :| idx in todo;
        todo := todo - {idx};
        if index[idx].base == base {
          match r
          case None => r := Some((idx, idx));
          case Some((lo, hi)) => r := Some((if idx < lo then idx else lo, if idx > hi then idx else hi));
        }
      }
    }

    /** The byte offset of the first record of the current segment from index min on. */
    method CutOffset(base: nat, min: nat) returns (r: Option<nat>)
      ensures r.None? ==> forall idx :: idx in index && idx >= min ==> index[idx].base != base
      ensures r.Some? ==> CutPoint(index, base, min, r.value)
    {
      r := None;
      ghost var at := 0;
      var todo := index.Keys;
      while todo != {}
        invariant todo <= index.Keys
        invariant r.None? ==> forall idx :: idx in index && idx !in todo && idx >= min ==> index[idx].base != base
        invariant r.Some? ==> at in index && at >= min && index[at].base == base && index[at].offset == r.value
        invariant r.Some? ==>
                    forall idx :: idx in index && idx !in todo && idx >= min && index[idx].base == base ==>
                      r.value <= index[idx].offset
        decreases todo
      {
        var idx :| idx in todo;
        todo := todo - {idx};
        if idx >= min && index[idx].base == base && (r.None? || index[idx].offset < r.value) {
          r := Some(index[idx].offset);
          at := idx;
        }
      }
    }

    method RemoveRange(min: nat, max: nat)
      modifies this`index
      ensures index == Kept(old(index), min, max)
    {
      var idx := min;
      while idx <= max
        invariant forall k :: k in index <==> k in old(index) && !(min <= k < idx && k <= max)
        invariant forall k :: k in index ==> index[k] == old(index)[k]
        decreases max + 1 - idx
      {
        index := index - {idx};
        idx := idx + 1;
      }
    }

    method Highest() returns (last: nat)
      ensures forall idx :: idx in index ==> idx <= last
      ensures last in index || (last == 0 && index == map[])
    {
      last := 0;
      var todo := index.Keys;
      while todo != {}
        invariant todo <= index.Keys && (last == 0 || last in index)
        invariant forall idx :: idx in index && idx !in todo ==> idx <= last
        decreases todo
      {
        var idx :| idx in todo;
        todo := todo - {idx};
        if idx > last {
          last := idx;
        }
      }
      if last == 0 && index != map[] {
        var idx :| idx in index;
        assert idx <= 0;
      }
    }

    /** The current segment is never deleted here, but cut when the range covers the log's end. */
    method TruncateCurrent(min: nat, max: nat)
      requires Valid()
      modifies this`segments
      ensures segments != [] && |segments| == |old(segments)|
      ensures forall i :: 0 <= i < |segments| ==> segments[i].base == old(segments)[i].base
      ensures Sound(crc, segments, Kept(index, min, max), Kept(live, min, max))
    {
      DeleteSound(crc, segments, index, live, min, max);
      var cur := segments[|segments| - 1];
      var count := EntryCount(cur.base);
      if cur.base > max || cur.base + count < min || max < lastIndex {
        return;
      }
      var cut := CutOffset(cur.base, min);
      if cut.Some? {
        CutSound(crc, segments, index, live, min, max, cut.value);
        segments := WithLast(segments, cur.file[..cut.value]);
      }
    }

    /** Older segments go when everything they own is in the range, and stay otherwise. */
    method DropCovered(min: nat, max: nat)
      requires segments != [] && Sound(crc, segments, Kept(index, min, max), Kept(live, min, max))
      modifies this`segments
      ensures segments != [] && segments[|segments| - 1] == old(segments)[|old(segments)| - 1]
      ensures Sound(crc, segments, Kept(index, min, max), Kept(live, min, max))
      ensures (forall idx :: idx in live ==> idx <= max) && segments[|segments| - 1].base <= max + 1 ==>
                forall j :: 0 <= j < |segments| - 1 ==> segments[j].base <= min
      ensures Reclaimed(index, segments, min, max)
      ensures forall j :: 0 <= j < |segments| ==> segments[j] in old(segments)
    {
      ghost var covers := (forall idx :: idx in live ==> idx <= max) && segments[|segments| - 1].base <= max + 1;
      var i := |segments| - 1;
      while i > 0
        invariant 0 <= i <= |segments| - 1 && segments[|segments| - 1] == old(segments)[|old(segments)| - 1]
        invariant Sound(crc, segments, Kept(index, min, max), Kept(live, min, max))
        invariant covers ==> forall j :: i <= j < |segments| - 1 ==> segments[j].base <= min
        invariant forall j :: i <= j < |segments| - 1 ==> !Covered(index, segments[j].base, min, max)
        invariant forall j :: 0 <= j < |segments| ==> segments[j] in old(segments)
      {
        i := i - 1;
        var seg := segments[i];
        var drop := ShouldDrop(i, min, max);
        if drop {
          DropSound(crc, segments, Kept(index, min, max), Kept(live, min, max), i);
          segments := Without(segments, i);
        }
      }
    }

    method ShouldDrop(i: nat, min: nat, max: nat) returns (drop: bool)
      requires i < |segments| - 1 && Sound(crc, segments, Kept(index, min, max), Kept(live, min, max))
      ensures drop ==> forall idx :: idx in Kept(index, min, max) ==> Kept(index, min, max)[idx].base != segments[i].base
      ensures (forall idx :: idx in live ==> idx <= max) && segments[|segments| - 1].base <= max + 1 ==>
                (segments[i].base > min ==> drop)
      ensures drop <==> Covered(index, segments[i].base, min, max)
    {
      WalIndex.Open(crc, segments, Kept(index, min, max), Kept(live, min, max));
      FileAt(segments, i);
      var seg := segments[i];
      if seg.base > max {
        return false;
      }
      var count := EntryCount(seg.base);
      if seg.base + count < min {
        return false;
      }
      var bounds := Bounds(seg.base);
      drop := bounds.None? || (bounds.value.0 >= min && bounds.value.1 <= max);
      if seg.base > min && forall idx :: idx in live ==> idx <= max {
        OwnedAbove(crc, segments, index, live, i, min, max);
      }
    }

    /** An emptied current segment is replaced, so that its base never exceeds what comes next. */
    method DropEmptyCurrent()
      requires segments != [] && Sound(crc, segments, index, live) && IsLast(live, lastIndex)
      modifies this`segments
      ensures segments != [] && Sound(crc, segments, index, live)
      ensures var last := old(segments)[|old(segments)| - 1];
              if lastIndex >= last.base then segments == old(segments)
              else if |old(segments)| > 1 then segments == old(segments)[..|old(segments)| - 1]
              else segments == [Segment(lastIndex + 1, [])]
    {
      var cur := segments[|segments| - 1];
      if lastIndex < cur.base {
        NothingAbove(crc, segments, index, live, lastIndex);
        DropSound(crc, segments, index, live, |segments| - 1);
        assert Without(segments, |segments| - 1) == segments[..|segments| - 1];
        segments := segments[..|segments| - 1];
      }
      if |segments| == 0 {
        RotateSound(crc, segments, index, live, lastIndex + 1);
        segments := segments + [Segment(lastIndex + 1, [])];
      }
    }

    /** The files, the index and the plain log lose the range together. */
    method Discard(min: nat, max: nat)
      requires Valid()
      modifies this`segments, this`index, this`live
      ensures segments != [] && segments[|segments| - 1].base == old(segments)[|old(segments)| - 1].base
      ensures live == Kept(old(live), min, max) && Sound(crc, segments, index, live)
      ensures (forall idx :: idx in old(live) ==> idx <= max) && segments[|segments| - 1].base <= max + 1 ==>
                forall j :: 0 <= j < |segments| - 1 ==> segments[j].base <= min
      ensures Reclaimed(old(index), segments, min, max)
      ensures NoNewBases(old(segments), segments)
    {
      TruncateCurrent(min, max);
      DropCovered(min, max);
      RemoveRange(min, max);
      live := Kept(live, min, max);
    }

    /** After a deletion: the last index is looked up again, and an emptied current segment goes. */
    method FixEnd(min: nat, max: nat, ghost segs0: seq<Segment>, ghost index0: Index, ghost live0: Entries, ghost last0: nat)
      requires segs0 != [] && segs0[|segs0| - 1].base <= next && IsLast(live0, last0) && last0 < next && min <= max
      requires segments != [] && segments[|segments| - 1].base == segs0[|segs0| - 1].base
      requires live == Kept(live0, min, max) && Sound(crc, segments, index, live)
      requires (forall idx :: idx in live0 ==> idx <= max) && segments[|segments| - 1].base <= max + 1 ==>
                 forall j :: 0 <= j < |segments| - 1 ==> segments[j].base <= min
      requires Reclaimed(index0, segments, min, max) && NoNewBases(segs0, segments)
      modifies this`next, this`lastIndex, this`segments
      ensures Valid() && next == NextAfter(old(next), min, max)
      ensures Reclaimed(index0, segments, min, max) && NoNewBases(segs0, segments[..|segments| - 1])
    {
      next := NextAfter(next, min, max);
      lastIndex := Highest();
      SameKeys(crc, segments, index, live);
      BasesBelowNext(segs0, live0, last0, old(next), segments, live, lastIndex, min, max);
      DropEmptyCurrent();
      FewerReclaimed(index0, segs0, old(segments), segments, min, max);
    }

    /** DeleteRange: the plain log without the range. Appends may continue where they would have, and
        when the range reached the end, already from the range's start. */
    method DeleteRange(min: nat, max: nat)
      requires Valid()
      modifies this
      ensures Valid() && live == Kept(old(live), min, max) && next == NextAfter(old(next), min, max)
      ensures min <= max ==> Reclaimed(old(index), segments, min, max)
      ensures NoNewBases(old(segments), segments[..|segments| - 1])
    {
      if min > max {
        assert Kept(live, min, max) == live;
        return;
      }
      Discard(min, max);
      FixEnd(min, max, old(segments), old(index), old(live), old(lastIndex));
    }

    /** Compact: everything up to the index goes. */
    method Compact(upTo: nat)
      requires Valid()
      modifies this
      ensures Valid() && live == Kept(old(live), 0, upTo) && next <= old(next)
      ensures upTo > 0 ==> AllNeeded(old(index), segments, upTo)
    {
      if upTo == 0 {
        assert Kept(live, 0, upTo) == live by { NoZero(crc, segments, index, live); }
        return;
      }
      var first := segments[0].base;
      FirstBase(crc, segments, index, live);
      assert forall idx :: idx in live ==> first <= idx;
      if upTo < first {
        assert Kept(live, 0, upTo) == live;
        SameKeys(crc, segments, index, live);
        AllAbove(segments, index, upTo);
        return;
      }
      assert Kept(live, 0, upTo) == Kept(live, first, upTo);
      DeleteRange(first, upTo);
      ReclaimedUpTo(crc, old(segments), old(index), old(live), segments, upTo);
    }
  }

  /** The record at the end of the last file, and an empty segment behind it once that file has reached
      the segment size. */
  function Grown(crc: Checksum, segs: seq<Segment>, e: LogEntry): seq<Segment>
    requires segs != []
  {
    var file := segs[|segs| - 1].file + Encode(crc, e);
    segs[..|segs| - 1] + [Segment(segs[|segs| - 1].base, file)] + if |file| >= SEGMENT_SIZE then [Segment(e.index + 1, [])] else []
  }

  /** A segment the deletion of a range leaves nothing in: it begins inside or below the range, is not
      taken to end below it, and owns no index outside it. */
  ghost predicate Covered(index: Index, base: nat, min: nat, max: nat) {
    && base <= max && min <= base + |From(index.Keys, base)|
    && forall idx :: idx in index && index[idx].base == base ==> min <= idx <= max
  }

  /** No covered segment is left, the current one aside. */
  ghost predicate Reclaimed(index: Index, segs: seq<Segment>, min: nat, max: nat) {
    forall j :: 0 <= j < |segs| - 1 ==> !Covered(index, segs[j].base, min, max)
  }

  /** The segment holds an entry past the index. */
  ghost predicate Needed(index: Index, base: nat, upTo: nat) {
    exists idx :: idx in index && index[idx].base == base && idx > upTo
  }

  /** The segments left, the current one aside, begin past the index or hold an entry past it. */
  ghost predicate AllNeeded(index: Index, segs: seq<Segment>, upTo: nat) {
    forall j :: 0 <= j < |segs| - 1 && segs[j].base <= upTo ==> Needed(index, segs[j].base, upTo)
  }

  ghost predicate HasBase(segs: seq<Segment>, base: nat) {
    exists k :: 0 <= k < |segs| && segs[k].base == base
  }

  ghost predicate NoNewBases(segs0: seq<Segment>, segs: seq<Segment>) {
    forall j :: 0 <= j < |segs| ==> HasBase(segs0, segs[j].base)
  }

  lemma FewerReclaimed(index: Index, segs0: seq<Segment>, kept: seq<Segment>, segs: seq<Segment>, min: nat, max: nat)
    requires Reclaimed(index, kept, min, max) && NoNewBases(segs0, kept) && kept != []
    requires segs == kept || segs == kept[..|kept| - 1] || |segs| == 1
    requires segs != []
    ensures Reclaimed(index, segs, min, max) && NoNewBases(segs0, segs[..|segs| - 1])
  {
    assert forall j :: 0 <= j < |segs| - 1 ==> segs[j] == kept[j];
    var front := segs[..|segs| - 1];
    forall j | 0 <= j < |front| ensures HasBase(segs0, front[j].base) {
      assert front[j] == kept[j];
    }
  }

  lemma BasesFrom(segs0: seq<Segment>, segs: seq<Segment>)
    requires Ascending(segs0) && segs0 != [] && segs != [] && NoNewBases(segs0, segs[..|segs| - 1])
    ensures forall j :: 0 <= j < |segs| - 1 ==> segs0[0].base <= segs[j].base
  {
    forall j | 0 <= j < |segs| - 1 ensures segs0[0].base <= segs[j].base {
      assert segs[..|segs| - 1][j] == segs[j];
      assert HasBase(segs0, segs[j].base);
      var k :| 0 <= k < |segs0| && segs0[k].base == segs[j].base;
    }
  }

  lemma ReclaimedUpTo(crc: Checksum, segs0: seq<Segment>, index: Index, live: Entries, segs: seq<Segment>, upTo: nat)
    requires Sound(crc, segs0, index, live) && segs0 != [] && segs != [] && segs0[0].base <= upTo
    requires Reclaimed(index, segs, segs0[0].base, upTo) && NoNewBases(segs0, segs[..|segs| - 1])
    ensures AllNeeded(index, segs, upTo)
  {
    FirstBase(crc, segs0, index, live);
    SameKeys(crc, segs0, index, live);
    BasesFrom(segs0, segs);
    forall j | 0 <= j < |segs| - 1 && segs[j].base <= upTo ensures Needed(index, segs[j].base, upTo) {
      assert !Covered(index, segs[j].base, segs0[0].base, upTo);
    }
  }

  lemma AllAbove(segs: seq<Segment>, index: Index, upTo: nat)
    requires Ascending(segs) && segs != [] && upTo < segs[0].base
    ensures AllNeeded(index, segs, upTo)
  {
  }

  /** A plain log with more entries written, each at its index. */
  function Extended(live: Entries, entries: seq<LogEntry>): Entries {
    if entries == [] then live
    else Extended(live, entries[..|entries| - 1])[entries[|entries| - 1].index := entries[|entries| - 1]]
  }

  /** From where appends may continue after a deletion. */
  function NextAfter(next: nat, min: nat, max: nat): (n: nat)
    ensures next >= 1 ==> 1 <= n <= next
  {
    if min < next <= max + 1 then (if min == 0 then 1 else min) else next
  }

  /** The indices from base on. */
  function From(indices: set<nat>, base: nat): set<nat> {
    set idx | idx in indices && idx >= base
  }

  lemma FromLess(indices: set<nat>, base: nat, idx: nat)
    requires idx in indices
    ensures |From(indices, base)| == |From(indices - {idx}, base)| + if idx >= base then 1 else 0
  {
    var rest := From(indices - {idx}, base);
    assert From(indices, base) == if idx >= base then rest + {idx} else rest;
  }

  lemma NothingAbove(crc: Checksum, segs: seq<Segment>, index: Index, live: Entries, last: nat)
    requires Sound(crc, segs, index, live) && segs != [] && IsLast(live, last) && last < segs[|segs| - 1].base
    ensures forall idx :: idx in index ==> index[idx].base != segs[|segs| - 1].base
  {
    WalIndex.Open(crc, segs, index, live);
    forall idx | idx in index ensures index[idx].base != segs[|segs| - 1].base {
      assert Sits(crc, FilesOf(segs), index, live, idx);
    }
  }

  lemma NoZero(crc: Checksum, segs: seq<Segment>, index: Index, live: Entries)
    requires Sound(crc, segs, index, live)
    ensures forall idx :: idx in live ==> idx > 0
  {
    WalIndex.Open(crc, segs, index, live);
    forall idx | idx in live ensures idx > 0 {
      assert Sits(crc, FilesOf(segs), index, live, idx);
    }
  }

  lemma FirstBase(crc: Checksum, segs: seq<Segment>, index: Index, live: Entries)
    requires Sound(crc, segs, index, live) && segs != []
    ensures forall idx :: idx in live ==> segs[0].base <= idx
  {
    WalIndex.Open(crc, segs, index, live);
    forall idx | idx in live ensures segs[0].base <= idx {
      assert Sits(crc, FilesOf(segs), index, live, idx);
      var i := BaseFound(segs, index[idx].base);
    }
  }

  lemma OwnedAbove(crc: Checksum, segs: seq<Segment>, index: Index, live: Entries, i: nat, min: nat, max: nat)
    requires Sound(crc, segs, Kept(index, min, max), Kept(live, min, max)) && i < |segs|
    requires segs[i].base > min && forall idx :: idx in live ==> idx <= max
    ensures forall idx :: idx in index && index[idx].base == segs[i].base ==> min <= idx <= max
  {
    WalIndex.Open(crc, segs, Kept(index, min, max), Kept(live, min, max));
    forall idx | idx in index && index[idx].base == segs[i].base ensures min <= idx <= max {
      if idx in Kept(index, min, max) {
        assert Sits(crc, FilesOf(segs), Kept(index, min, max), Kept(live, min, max), idx);
      }
    }
  }

  lemma SameKeys(crc: Checksum, segs: seq<Segment>, index: Index, live: Entries)
    requires Sound(crc, segs, index, live)
    ensures Ascending(segs) && index.Keys == live.Keys && (index == map[] <==> live == map[])
  {
    WalIndex.Open(crc, segs, index, live);
  }

  /** What is left ends below the next index, and so do the segments that may become current. */
  lemma BasesBelowNext(segs0: seq<Segment>, live0: Entries, last0: nat, next0: nat,
                       segs: seq<Segment>, live: Entries, last: nat, min: nat, max: nat)
    requires segs0 != [] && segs0[|segs0| - 1].base <= next0 && IsLast(live0, last0) && last0 < next0
    requires segs != [] && segs[|segs| - 1].base == segs0[|segs0| - 1].base && Ascending(segs)
    requires live == Kept(live0, min, max) && IsLast(live, last) && min <= max
    requires (forall idx :: idx in live0 ==> idx <= max) && segs[|segs| - 1].base <= max + 1 ==>
               forall j :: 0 <= j < |segs| - 1 ==> segs[j].base <= min
    ensures var next := NextAfter(next0, min, max);
            && last < next
            && (last >= segs[|segs| - 1].base ==> segs[|segs| - 1].base <= next)
            && (|segs| > 1 ==> segs[|segs| - 2].base <= next)
  {
  }
}
