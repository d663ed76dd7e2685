/** The binary snapshot stream (pkg/fsm/kv.go:883-1052, 1054-1091), and why compacting the log into
    a snapshot cannot be noticed. */
module KvSnapshot {
  import opened LogTypes
  import opened Texts
  import opened KvModel
  import opened Varints

  const STREAM_MAGIC: byte := 2
  const STREAM_VERSION: nat := 2

  datatype Snapshot = Snapshot(revision: int, index: nat, clock: int, data: Data, dedup: DedupTable)

  function SnapshotOf(s: Store): Snapshot {
    Snapshot(s.revision, s.index, s.clock, s.data, s.dedup)
  }

  // ---------------------------------------------------------------------------
  // Writing

  function PairBytes(key: Text, kv: KeyValue): seq<byte> {
    Prefixed(key) + (Prefixed(kv.value) + (Varint(kv.createRevision) + (Varint(kv.modRevision) +
      (Varint(kv.version) + Varint(kv.expiresAt)))))
  }

  function DedupBytes(id: Text, e: DedupEntry): seq<byte> {
    Prefixed(id) + (Uvarint(e.seqNum) + (Prefixed(e.result) + Uvarint(e.order)))
  }

  function PairsBytes(data: Data, order: seq<Text>): seq<byte>
    requires forall k :: k in order ==> k in data
  {
    if order == [] then [] else PairBytes(order[0], data[order[0]]) + PairsBytes(data, order[1..])
  }

  lemma {:induction false} PairsBytesSnoc(data: Data, order: seq<Text>, k: Text)
    requires k in data && forall o :: o in order ==> o in data
    ensures PairsBytes(data, order + [k]) == PairsBytes(data, order) + PairBytes(k, data[k])
    decreases |order|
  {
    if order == [] {
      assert (order + [k])[1..] == [];
    } else {
      assert (order + [k])[1..] == order[1..] + [k];
      PairsBytesSnoc(data, order[1..], k);
    }
  }

  function DedupsBytes(dedup: DedupTable, order: seq<Text>): seq<byte>
    requires forall k :: k in order ==> k in dedup
  {
    if order == [] then [] else DedupBytes(order[0], dedup[order[0]]) + DedupsBytes(dedup, order[1..])
  }

  lemma {:induction false} DedupsBytesSnoc(dedup: DedupTable, order: seq<Text>, k: Text)
    requires k in dedup && forall o :: o in order ==> o in dedup
    ensures DedupsBytes(dedup, order + [k]) == DedupsBytes(dedup, order) + DedupBytes(k, dedup[k])
    decreases |order|
  {
    if order == [] {
      assert (order + [k])[1..] == [];
    } else {
      assert (order + [k])[1..] == order[1..] + [k];
      DedupsBytesSnoc(dedup, order[1..], k);
    }
  }

  function Header(s: Snapshot): seq<byte> {
    Uvarint(STREAM_VERSION) + (Varint(s.revision) + (Uvarint(s.index) + Varint(s.clock)))
  }

  function Tables(s: Snapshot, keys: seq<Text>, clients: seq<Text>): seq<byte>
    requires (forall k :: k in keys ==> k in s.data) && forall k :: k in clients ==> k in s.dedup
  {
    Uvarint(|s.data|) + (PairsBytes(s.data, keys) + (Uvarint(|s.dedup|) + DedupsBytes(s.dedup, clients)))
  }

  function Stream(s: Snapshot, keys: seq<Text>, clients: seq<Text>): seq<byte>
    requires (forall k :: k in keys ==> k in s.data) && forall k :: k in clients ==> k in s.dedup
  {
    [STREAM_MAGIC] + (Header(s) + Tables(s, keys, clients))
  }

  /** The bytes are a stream of the snapshot, for some order of visiting its maps. */
  ghost predicate IsStream(s: Snapshot, out: seq<byte>) {
    exists keys, clients ::
      Visits(keys, s.data.Keys) && Visits(clients, s.dedup.Keys) && out == Stream(s, keys, clients)
  }

  ghost predicate HoldsPairs(data: Data, out: seq<byte>) {
    exists order :: Visits(order, data.Keys) && out == PairsBytes(data, order)
  }

  ghost predicate HoldsDedups(dedup: DedupTable, out: seq<byte>) {
    exists order :: Visits(order, dedup.Keys) && out == DedupsBytes(dedup, order)
  }

  /** writeSnapshotStream: the two map loops may visit their keys in any order. */
  method WriteStream(s: Snapshot) returns (out: seq<byte>)
    ensures IsStream(s, out)
  {
    var header, n, dn := Header(s), Uvarint(|s.data|), Uvarint(|s.dedup|);
    var pairs := WritePairs(s.data);
    var dedups := WriteDedups(s.dedup);
    out := [STREAM_MAGIC] + header;
    out := out + (n + pairs);
    out := out + (dn + dedups);
    StreamFrom(s, pairs, dedups);
    Nested([STREAM_MAGIC], header, n, pairs, dn + dedups);
  }

  lemma Nested(a: seq<byte>, b: seq<byte>, c: seq<byte>, d: seq<byte>, e: seq<byte>)
    ensures a + b + (c + d) + e == a + (b + (c + (d + e)))
  {
    assert (c + d) + e == c + (d + e);
    assert (a + b) + (c + (d + e)) == a + (b + (c + (d + e)));
  }

  lemma StreamFrom(s: Snapshot, pairs: seq<byte>, dedups: seq<byte>)
    requires HoldsPairs(s.data, pairs) && HoldsDedups(s.dedup, dedups)
    ensures IsStream(s, [STREAM_MAGIC] + (Header(s) + (Uvarint(|s.data|) + (pairs + (Uvarint(|s.dedup|) + dedups)))))
  {
    var keys :| Visits(keys, s.data.Keys) && pairs == PairsBytes(s.data, keys);
    var clients :| Visits(clients, s.dedup.Keys) && dedups == DedupsBytes(s.dedup, clients);
    assert [STREAM_MAGIC] + (Header(s) + (Uvarint(|s.data|) + (pairs + (Uvarint(|s.dedup|) + dedups)))) == Stream(s, keys, clients);
  }

  method WritePairs(data: Data) returns (out: seq<byte>)
    ensures HoldsPairs(data, out)
  {
    out := [];
    ghost var order: seq<Text> := [];
    var todo := data.Keys;
    while todo != {}
      invariant todo <= data.Keys && Visits(order, data.Keys - todo)
      invariant out == PairsBytes(data, order)
      decreases todo
    {
      var k :| k in todo;
      PairsBytesSnoc(data, order, k);
      out := out + PairBytes(k, data[k]);
      order := order + [k];
      todo := todo - {k};
    }
  }

  method WriteDedups(dedup: DedupTable) returns (out: seq<byte>)
    ensures HoldsDedups(dedup, out)
  {
    out := [];
    ghost var order: seq<Text> := [];
    var todo := dedup.Keys;
    while todo != {}
      invariant todo <= dedup.Keys && Visits(order, dedup.Keys - todo)
      invariant out == DedupsBytes(dedup, order)
      decreases todo
    {
      var k :| k in todo;
      DedupsBytesSnoc(dedup, order, k);
      out := out + DedupBytes(k, dedup[k]);
      order := order + [k];
      todo := todo - {k};
    }
  }

  // ---------------------------------------------------------------------------
  // Reading

  /** Streams before version 2 carry no expiry. */
  function ReadPair(b: seq<byte>, version: nat): Reader<KeyValue> {
    var key :- ReadPrefixed(b);
    var value :- ReadPrefixed(key.rest);
    var created :- ReadVarint(value.rest);
    var modified :- ReadVarint(created.rest);
    var times :- ReadVarint(modified.rest);
    var expires :- if version >= 2 then ReadVarint(times.rest) else Some(Parsed(0, times.rest));
    Some(Parsed(KeyValue(key.value, value.value, created.value, modified.value, times.value, expires.value), expires.rest))
  }

  function ReadPairs(b: seq<byte>, n: nat, version: nat, data: Data): Reader<Data>
    decreases n
  {
    if n == 0 then Some(Parsed(data, b))
    else
      var kv :- ReadPair(b, version);
      ReadPairs(kv.rest, n - 1, version, data[kv.value.key := kv.value])
  }

  function ReadDedup(b: seq<byte>): Reader<(Text, DedupEntry)> {
    var id :- ReadPrefixed(b);
    var seqNum :- ReadUvarint(id.rest);
    var result :- ReadPrefixed(seqNum.rest);
    var order :- ReadUvarint(result.rest);
    Some(Parsed((id.value, DedupEntry(seqNum.value, result.value, order.value)), order.rest))
  }

  function ReadDedups(b: seq<byte>, n: nat, dedup: DedupTable): Reader<DedupTable>
    decreases n
  {
    if n == 0 then Some(Parsed(dedup, b))
    else
      var e :- ReadDedup(b);
      ReadDedups(e.rest, n - 1, dedup[e.value.0 := e.value.1])
  }

  function ReadTables(b: seq<byte>, version: nat): Option<(Data, DedupTable)> {
    var n :- ReadUvarint(b);
    var data :- ReadPairs(n.rest, n.value, version, map[]);
    var dn :- ReadUvarint(data.rest);
    var dedup :- ReadDedups(dn.rest, dn.value, map[]);
    Some((data.value, dedup.value))
  }

  function ReadBody(b: seq<byte>): Option<Snapshot> {
    var version :- ReadUvarint(b);
    var revision :- ReadVarint(version.rest);
    var index :- ReadUvarint(revision.rest);
    var clock :- if version.value >= 2 then ReadVarint(index.rest) else Some(Parsed(0, index.rest));
    var tables :- ReadTables(clock.rest, version.value);
    Some(Snapshot(revision.value, index.value, clock.value, tables.0, tables.1))
  }

  /** Restoring from a stream. The watch history is gone either way. */
  function Restored(s: Store, b: seq<byte>): (Store, bool)
    requires b != [] && b[0] == STREAM_MAGIC
  {
    match ReadBody(b[1..])
    case None => (s.(recent := []), false)
    case Some(snap) => (Store(snap.data, snap.revision, snap.index, snap.clock, [], snap.dedup), true)
  }

  // ---------------------------------------------------------------------------
  // Round trip

  /** Numbers and lengths are within the machine words the source keeps them in. */
  ghost predicate PairFits(key: Text, kv: KeyValue) {
    && Uint64(|key|) && Uint64(|kv.value|)
    && Int64(kv.createRevision) && Int64(kv.modRevision) && Int64(kv.version) && Int64(kv.expiresAt)
  }

  ghost predicate DedupFits(id: Text, e: DedupEntry) {
    Uint64(|id|) && Uint64(e.seqNum) && Uint64(|e.result|) && Uint64(e.order)
  }

  ghost predicate Fits(s: Snapshot) {
    && Int64(s.revision) && Uint64(s.index) && Int64(s.clock) && Uint64(|s.data|) && Uint64(|s.dedup|)
    && (forall k :: k in s.data ==> PairFits(k, s.data[k]))
    && (forall k :: k in s.dedup ==> DedupFits(k, s.dedup[k]))
  }

  lemma PairRoundTrip(key: Text, kv: KeyValue, rest: seq<byte>)
    requires PairFits(key, kv) && kv.key == key
    ensures ReadPair(PairBytes(key, kv) + rest, STREAM_VERSION) == Some(Parsed(kv, rest))
  {
    var e := Varint(kv.expiresAt) + rest;
    var d := Varint(kv.version) + e;
    var c := Varint(kv.modRevision) + d;
    var b := Varint(kv.createRevision) + c;
    var a := Prefixed(kv.value) + b;
    assert PairBytes(key, kv) + rest == Prefixed(key) + a;
    PrefixedRoundTrip(key, a);
    PrefixedRoundTrip(kv.value, b);
    VarintRoundTrip(kv.createRevision, c);
    VarintRoundTrip(kv.modRevision, d);
    VarintRoundTrip(kv.version, e);
    VarintRoundTrip(kv.expiresAt, rest);
  }

  /** Entries read one by one into a map. */
  function Gathered<V>(m: map<Text, V>, order: seq<Text>, acc: map<Text, V>): map<Text, V>
    requires forall k :: k in order ==> k in m
    decreases |order|
  {
    if order == [] then acc else Gathered(m, order[1..], acc[order[0] := m[order[0]]])
  }

  lemma {:induction false} PairsRoundTrip(data: Data, order: seq<Text>, rest: seq<byte>, acc: Data)
    requires forall k :: k in order ==> k in data && PairFits(k, data[k]) && data[k].key == k
    ensures ReadPairs(PairsBytes(data, order) + rest, |order|, STREAM_VERSION, acc)
         == Some(Parsed(Gathered(data, order, acc), rest))
    decreases |order|
  {
    if order == [] {
      assert PairsBytes(data, order) + rest == rest;
    } else {
      var k, tail := order[0], order[1..];
      assert PairsBytes(data, order) + rest == PairBytes(k, data[k]) + (PairsBytes(data, tail) + rest);
      PairRoundTrip(k, data[k], PairsBytes(data, tail) + rest);
      PairsRoundTrip(data, tail, rest, acc[k := data[k]]);
    }
  }

  lemma DedupRoundTrip(id: Text, e: DedupEntry, rest: seq<byte>)
    requires DedupFits(id, e)
    ensures ReadDedup(DedupBytes(id, e) + rest) == Some(Parsed((id, e), rest))
  {
    var c := Uvarint(e.order) + rest;
    var b := Prefixed(e.result) + c;
    var a := Uvarint(e.seqNum) + b;
    assert DedupBytes(id, e) + rest == Prefixed(id) + a;
    PrefixedRoundTrip(id, a);
    UvarintRoundTrip(e.seqNum, b);
    PrefixedRoundTrip(e.result, c);
    UvarintRoundTrip(e.order, rest);
  }

  lemma {:induction false} DedupsRoundTrip(dedup: DedupTable, order: seq<Text>, acc: DedupTable)
    requires forall k :: k in order ==> k in dedup && DedupFits(k, dedup[k])
    ensures ReadDedups(DedupsBytes(dedup, order), |order|, acc) == Some(Parsed(Gathered(dedup, order, acc), []))
    decreases |order|
  {
    if order != [] {
      var k, tail := order[0], order[1..];
      DedupRoundTrip(k, dedup[k], DedupsBytes(dedup, tail));
      DedupsRoundTrip(dedup, tail, acc[k := dedup[k]]);
    }
  }

  lemma {:induction false} GatheredIs<V>(m: map<Text, V>, order: seq<Text>, acc: map<Text, V>, k: Text)
    requires forall o :: o in order ==> o in m
    ensures k in Gathered(m, order, acc) <==> k in order || k in acc
    ensures k in Gathered(m, order, acc) ==> Gathered(m, order, acc)[k] == if k in order then m[k] else acc[k]
    decreases |order|
  {
    if order != [] {
      GatheredIs(m, order[1..], acc[order[0] := m[order[0]]], k);
    }
  }

  lemma Visited<V>(m: map<Text, V>, order: seq<Text>)
    requires Visits(order, m.Keys)
    ensures Gathered(m, order, map[]) == m && |order| == |m|
  {
    VisitCount(order, m.Keys);
    forall k ensures k in Gathered(m, order, map[]) <==> k in m {
      GatheredIs(m, order, map[], k);
    }
    forall k | k in m ensures Gathered(m, order, map[])[k] == m[k] {
      GatheredIs(m, order, map[], k);
    }
  }

  lemma TablesRoundTrip(s: Snapshot, keys: seq<Text>, clients: seq<Text>)
    requires Fits(s) && Keyed(s.data) && Visits(keys, s.data.Keys) && Visits(clients, s.dedup.Keys)
    ensures ReadTables(Tables(s, keys, clients), STREAM_VERSION) == Some((s.data, s.dedup))
  {
    Visited(s.data, keys);
    Visited(s.dedup, clients);
    var c := DedupsBytes(s.dedup, clients);
    var b := Uvarint(|s.dedup|) + c;
    var a := PairsBytes(s.data, keys) + b;
    UvarintRoundTrip(|s.data|, a);
    PairsRoundTrip(s.data, keys, b, map[]);
    UvarintRoundTrip(|s.dedup|, c);
    DedupsRoundTrip(s.dedup, clients, map[]);
  }

  /** A stream reads back as what was written, whatever order the maps were visited in. */
  lemma StreamRoundTrip(s: Snapshot, keys: seq<Text>, clients: seq<Text>)
    requires Fits(s) && Keyed(s.data) && Visits(keys, s.data.Keys) && Visits(clients, s.dedup.Keys)
    ensures ReadBody(Header(s) + Tables(s, keys, clients)) == Some(s)
  {
    var d := Tables(s, keys, clients);
    var c := Varint(s.clock) + d;
    var b := Uvarint(s.index) + c;
    var a := Varint(s.revision) + b;
    assert Header(s) + d == Uvarint(STREAM_VERSION) + a;
    UvarintRoundTrip(STREAM_VERSION, a);
    VarintRoundTrip(s.revision, b);
    UvarintRoundTrip(s.index, c);
    VarintRoundTrip(s.clock, d);
    TablesRoundTrip(s, keys, clients);
  }

  // ---------------------------------------------------------------------------
  // Entries know their key

  ghost predicate Keyed(data: Data) {
    forall k :: k in data ==> data[k].key == k
  }

  lemma {:induction false} OpsKeyed(data: Data, ops: seq<TxnOp>, rev: int)
    requires Keyed(data)
    ensures Keyed(OpsData(data, ops, rev))
    decreases |ops|
  {
    if ops != [] {
      OpsKeyed(data, ops[..|ops| - 1], rev);
    }
  }

  lemma ExecuteKeyed(s: View, cmd: Command)
    requires Keyed(s.data)
    ensures Keyed(Execute(s, cmd).data)
  {
    if cmd.op == Txn && cmd.txn.Some? {
      OpsKeyed(s.data, Branch(s, cmd.txn.value), s.revision + 1);
    }
  }

  lemma {:induction false} RunKeyed(render: Render, s: Store, log: seq<Command>)
    requires Keyed(s.data)
    ensures Keyed(ApplyAll(render, s, log).data)
    decreases |log|
  {
    if log != [] {
      var mid, cmd := ApplyAll(render, s, log[..|log| - 1]), log[|log| - 1];
      RunKeyed(render, s, log[..|log| - 1]);
      ExecuteKeyed(ViewOf(Clocked(mid, cmd)), cmd);
    }
  }

  // ---------------------------------------------------------------------------
  // Compaction

  ghost predicate SameState(s: Store, s': Store) {
    s'.(recent := s.recent) == s
  }

  lemma RecordedSameState(t: Store, t': Store, cmd: Command, e: Effect, result: seq<byte>)
    requires SameState(t, t')
    ensures SameState(Recorded(t, cmd, e, result), Recorded(t', cmd, e, result))
  {
  }

  lemma SameStateStep(render: Render, s: Store, s': Store, cmd: Command)
    requires SameState(s, s')
    ensures SameState(Apply(render, s, cmd).0, Apply(render, s', cmd).0)
    ensures Apply(render, s, cmd).1 == Apply(render, s', cmd).1
  {
    var t, t' := Clocked(s, cmd), Clocked(s', cmd);
    var e := Execute(ViewOf(t), cmd);
    RecordedSameState(t, t', cmd, e, render(e.reply));
  }

  /** The watch history never influences what commands do. */
  lemma {:induction false} SameStateRun(render: Render, s: Store, s': Store, log: seq<Command>)
    requires SameState(s, s')
    ensures SameState(ApplyAll(render, s, log), ApplyAll(render, s', log))
    ensures Replies(render, s, log) == Replies(render, s', log)
    decreases |log|
  {
    if log != [] {
      var front := log[..|log| - 1];
      SameStateRun(render, s, s', front);
      SameStateStep(render, ApplyAll(render, s, front), ApplyAll(render, s', front), log[|log| - 1]);
    }
  }

  lemma {:induction false} ApplyConcat(render: Render, s: Store, a: seq<Command>, b: seq<Command>)
    ensures ApplyAll(render, s, a + b) == ApplyAll(render, ApplyAll(render, s, a), b)
    ensures Replies(render, s, a + b) == Replies(render, s, a) + Replies(render, ApplyAll(render, s, a), b)
    decreases |b|
  {
    if b == [] {
      assert a + b == a;
    } else {
      var front := b[..|b| - 1];
      assert (a + b)[..|a + b| - 1] == a + front;
      ApplyConcat(render, s, a, front);
    }
  }

  /** Any stream of a snapshot, restored over any store, gives the snapshot's store back. */
  lemma RestoreGivesBack(s: Store, bytes: seq<byte>, other: Store)
    requires Fits(SnapshotOf(s)) && Keyed(s.data) && IsStream(SnapshotOf(s), bytes)
    ensures bytes != [] && bytes[0] == STREAM_MAGIC && Restored(other, bytes) == (s.(recent := []), true)
  {
    var snap := SnapshotOf(s);
    var keys, clients :| Visits(keys, snap.data.Keys) && Visits(clients, snap.dedup.Keys) && bytes == Stream(snap, keys, clients);
    StreamRoundTrip(snap, keys, clients);
    assert bytes[1..] == Header(snap) + Tables(snap, keys, clients);
  }

  /** Compaction is invisible: applying a prefix, streaming the snapshot in any map order,
      restoring it over any store at all and applying the rest gives the state and the replies
      that applying the whole log gives, watch history aside. */
  lemma CompactionInvisible(render: Render, before: seq<Command>, after: seq<Command>, other: Store, bytes: seq<byte>)
    requires var snap := SnapshotOf(ApplyAll(render, EMPTY_STORE, before));
             Fits(snap) && IsStream(snap, bytes)
    ensures bytes != [] && bytes[0] == STREAM_MAGIC
    ensures var (r, ok) := Restored(other, bytes);
            && ok && SameState(ApplyAll(render, EMPTY_STORE, before + after), ApplyAll(render, r, after))
            && Replies(render, EMPTY_STORE, before + after)
                 == Replies(render, EMPTY_STORE, before) + Replies(render, r, after)
  {
    var s := ApplyAll(render, EMPTY_STORE, before);
    RunKeyed(render, EMPTY_STORE, before);
    RestoreGivesBack(s, bytes, other);
    ApplyConcat(render, EMPTY_STORE, before, after);
    SameStateRun(render, s, s.(recent := []), after);
  }
}
