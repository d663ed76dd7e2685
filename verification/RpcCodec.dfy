/** The AppendEntries message of pkg/transport/binary.go: a printer and a bounds-checked parser. */
module RpcCodec {
  import opened LogTypes
  import opened Varints

  const MAX_DECODE_LEN: nat := 0x4000_0000
  const MAX_ENTRIES: nat := 10_000

  datatype Message = Message(term: nat, leaderId: seq<byte>, prevIndex: nat, prevTerm: nat, leaderCommit: nat,
                             entries: seq<LogEntry>)

  // ---------------------------------------------------------------------------
  // Printing

  function EntryBytes(e: LogEntry): seq<byte> {
    Uvarint(e.term) + (Uvarint(e.index) + ([e.kind] + Prefixed(e.data)))
  }

  function EntriesBytes(es: seq<LogEntry>): seq<byte> {
    if es == [] then [] else EntryBytes(es[0]) + EntriesBytes(es[1..])
  }

  function MessageBytes(m: Message): seq<byte> {
    Uvarint(m.term) + (Prefixed(m.leaderId) + (Uvarint(m.prevIndex) + (Uvarint(m.prevTerm) +
      (Uvarint(m.leaderCommit) + (Uvarint(|m.entries|) + EntriesBytes(m.entries))))))
  }

  lemma {:induction false} EntriesSnoc(es: seq<LogEntry>, e: LogEntry)
    ensures EntriesBytes(es + [e]) == EntriesBytes(es) + EntryBytes(e)
    decreases |es|
  {
    if es == [] {
      assert (es + [e])[1..] == [];
    } else {
      assert (es + [e])[1..] == es[1..] + [e];
      EntriesSnoc(es[1..], e);
    }
  }

  method AppendEntry(dst: seq<byte>, e: LogEntry) returns (r: seq<byte>)
    ensures r == dst + EntryBytes(e)
  {
    r := dst + Uvarint(e.term);
    r := r + Uvarint(e.index);
    r := r + [e.kind];
    r := r + Prefixed(e.data);
  }

  method AppendHeader(m: Message) returns (r: seq<byte>)
    ensures r + EntriesBytes(m.entries) == MessageBytes(m)
  {
    r := Uvarint(m.term) + Prefixed(m.leaderId);
    r := r + Uvarint(m.prevIndex) + Uvarint(m.prevTerm);
    r := r + Uvarint(m.leaderCommit) + Uvarint(|m.entries|);
    HeaderAssociates(Uvarint(m.term), Prefixed(m.leaderId), Uvarint(m.prevIndex), Uvarint(m.prevTerm),
                     Uvarint(m.leaderCommit), Uvarint(|m.entries|), EntriesBytes(m.entries));
  }

  lemma HeaderAssociates(a: seq<byte>, b: seq<byte>, c: seq<byte>, d: seq<byte>, e: seq<byte>, f: seq<byte>, g: seq<byte>)
    ensures a + b + c + d + (e + f) + g == a + (b + (c + (d + (e + (f + g)))))
    ensures a + b + c + d + e + f + g == a + (b + (c + (d + (e + (f + g)))))
  {
    assert a + b + c == a + (b + c);
    assert c + (d + (e + (f + g))) == (c + d) + (e + (f + g));
    assert (e + f) + g == e + (f + g);
  }

  function BytesUpTo(header: seq<byte>, es: seq<LogEntry>, i: nat): seq<byte>
    requires i <= |es|
  {
    header + EntriesBytes(es[..i])
  }

  lemma BytesNext(header: seq<byte>, es: seq<LogEntry>, i: nat)
    requires i < |es|
    ensures BytesUpTo(header, es, i + 1) == BytesUpTo(header, es, i) + EntryBytes(es[i])
  {
    EntriesSnoc(es[..i], es[i]);
    assert es[..i + 1] == es[..i] + [es[i]];
  }

  /** MarshalAppendEntriesReq. */
  method Marshal(m: Message) returns (dst: seq<byte>)
    ensures dst == MessageBytes(m)
  {
    dst := AppendHeader(m);
    ghost var header := dst;
    assert m.entries[..0] == [] && header + [] == header;
    for i := 0 to |m.entries|
      invariant dst == BytesUpTo(header, m.entries, i)
    {
      BytesNext(header, m.entries, i);
      dst := AppendEntry(dst, m.entries[i]);
    }
    assert m.entries[..|m.entries|] == m.entries;
  }

  // ---------------------------------------------------------------------------
  // Parsing

  /** Length-prefixed bytes under the sanity cap. */
  function ReadCapped(b: seq<byte>): Reader<seq<byte>> {
    var n :- ReadUvarint(b);
    if n.value > MAX_DECODE_LEN || n.value > |n.rest| then None
    else Some(Parsed(n.rest[..n.value], n.rest[n.value..]))
  }

  function ReadEntry(b: seq<byte>): Reader<LogEntry> {
    var term :- ReadUvarint(b);
    var index :- ReadUvarint(term.rest);
    if index.rest == [] then None
    else
      var data :- ReadCapped(index.rest[1..]);
      Some(Parsed(LogEntry(term.value, index.value, index.rest[0], data.value), data.rest))
  }

  function ReadEntries(b: seq<byte>, n: nat): Reader<seq<LogEntry>>
    decreases n
  {
    if n == 0 then Some(Parsed([], b))
    else
      var e :- ReadEntry(b);
      var rest :- ReadEntries(e.rest, n - 1);
      Some(Parsed([e.value] + rest.value, rest.rest))
  }

  function ReadBatch(b: seq<byte>): Option<seq<LogEntry>> {
    var n :- ReadUvarint(b);
    if n.value > MAX_ENTRIES then None
    else
      var entries :- ReadEntries(n.rest, n.value);
      Some(entries.value)
  }

  function ReadMessage(b: seq<byte>): Option<Message> {
    var term :- ReadUvarint(b);
    var leader :- ReadCapped(term.rest);
    var prevIndex :- ReadUvarint(leader.rest);
    var prevTerm :- ReadUvarint(prevIndex.rest);
    var commit :- ReadUvarint(prevTerm.rest);
    var entries :- ReadBatch(commit.rest);
    Some(Message(term.value, leader.value, prevIndex.value, prevTerm.value, commit.value, entries))
  }

  /** The offset-based decoders of the source. They return the offset they started from on error,
      and every index stays inside the data whatever bytes it holds. */
  method DecodeUvarint(data: seq<byte>, off: nat) returns (v: nat, next: nat, ok: bool)
    requires off <= |data|
    ensures off <= next <= |data| && ok == ReadUvarint(data[off..]).Some?
    ensures ok ==> ReadUvarint(data[off..]) == Some(Parsed(v, data[next..]))
  {
    ReadUvarintSuffix(data[off..], 0);
    match ReadUvarint(data[off..])
    case None => return 0, off, false;
    case Some(p) => return p.value, |data| - |p.rest|, true;
  }

  method DecodeBytes(data: seq<byte>, off: nat) returns (v: seq<byte>, next: nat, ok: bool)
    requires off <= |data|
    ensures off <= next <= |data| && ok == ReadCapped(data[off..]).Some?
    ensures ok ==> ReadCapped(data[off..]) == Some(Parsed(v, data[next..]))
  {
    var length, at, fine := DecodeUvarint(data, off);
    if !fine {
      return [], at, false;
    }
    if length > MAX_DECODE_LEN {
      return [], at, false;
    }
    if length > |data| - at {
      return [], at, false;
    }
    assert data[at..][..length] == data[at..at + length] && data[at..][length..] == data[at + length..];
    return data[at..at + length], at + length, true;
  }

  method DecodeEntry(data: seq<byte>, off: nat) returns (e: LogEntry, next: nat, ok: bool)
    requires off <= |data|
    ensures off <= next <= |data| && ok == ReadEntry(data[off..]).Some?
    ensures ok ==> ReadEntry(data[off..]) == Some(Parsed(e, data[next..]))
  {
    e := LogEntry(0, 0, ENTRY_NORMAL, []);
    var term, index, bytes;
    term, next, ok := DecodeUvarint(data, off);
    if !ok {
      return;
    }
    index, next, ok := DecodeUvarint(data, next);
    if !ok {
      return;
    }
    if next >= |data| {
      ok := false;
      return;
    }
    var kind := data[next];
    next := next + 1;
    bytes, next, ok := DecodeBytes(data, next);
    e := LogEntry(term, index, kind, bytes);
  }

  method DecodeEntries(data: seq<byte>, off: nat, n: nat) returns (r: Option<seq<LogEntry>>)
    requires off <= |data|
    ensures r == var p := ReadEntries(data[off..], n); if p.None? then None else Some(p.value.value)
  {
    var entries: seq<LogEntry> := [];
    var at: nat := off;
    ghost var whole := ReadEntries(data[off..], n);
    ResumeStart(whole);
    for i := 0 to n
      invariant at <= |data| && Resumes(whole, entries, ReadEntries(data[at..], n - i))
    {
      var e, next, ok := DecodeEntry(data, at);
      if !ok {
        return None;
      }
      ResumeStep(whole, entries, data[at..], n - i, e, data[next..]);
      entries := entries + [e];
      at := next;
    }
    ResumeEnd(whole, entries, data[at..]);
    return Some(entries);
  }

  lemma ResumeStart(whole: Reader<seq<LogEntry>>)
    ensures Resumes(whole, [], whole)
  {
    assert whole.Some? ==> [] + whole.value.value == whole.value.value;
  }

  lemma ResumeEnd(whole: Reader<seq<LogEntry>>, done: seq<LogEntry>, b: seq<byte>)
    requires Resumes(whole, done, ReadEntries(b, 0))
    ensures whole == Some(Parsed(done, b))
  {
    assert done + [] == done;
  }

  lemma ResumeStep(whole: Reader<seq<LogEntry>>, done: seq<LogEntry>, b: seq<byte>, n: nat, e: LogEntry, rest: seq<byte>)
    requires n > 0 && Resumes(whole, done, ReadEntries(b, n)) && ReadEntry(b) == Some(Parsed(e, rest))
    ensures Resumes(whole, done + [e], ReadEntries(rest, n - 1))
  {
    var left := ReadEntries(rest, n - 1);
    if left.Some? {
      assert done + ([e] + left.value.value) == done + [e] + left.value.value;
    }
  }

  /** Reading everything is reading what is left and putting it behind what was read. */
  ghost predicate Resumes(whole: Reader<seq<LogEntry>>, done: seq<LogEntry>, left: Reader<seq<LogEntry>>) {
    whole == if left.None? then None else Some(Parsed(done + left.value.value, left.value.rest))
  }

  /** UnmarshalAppendEntriesReq. */
  method Unmarshal(data: seq<byte>) returns (r: Option<Message>)
    ensures r == ReadMessage(data)
  {
    assert data[0..] == data;
    var term, off, ok := DecodeUvarint(data, 0);
    if !ok {
      return None;
    }
    var leader;
    leader, off, ok := DecodeBytes(data, off);
    if !ok {
      return None;
    }
    var prevIndex, prevTerm, commit, n;
    prevIndex, off, ok := DecodeUvarint(data, off);
    if !ok {
      return None;
    }
    prevTerm, off, ok := DecodeUvarint(data, off);
    if !ok {
      return None;
    }
    commit, off, ok := DecodeUvarint(data, off);
    if !ok {
      return None;
    }
    n, off, ok := DecodeUvarint(data, off);
    if !ok || n > MAX_ENTRIES {
      return None;
    }
    var entries := DecodeEntries(data, off, n);
    if entries.None? {
      return None;
    }
    return Some(Message(term, leader, prevIndex, prevTerm, commit, entries.value));
  }

  // ---------------------------------------------------------------------------
  // Round trip

  /** Numbers are 64-bit, as their Go types make them. */
  ghost predicate Words(m: Message) {
    && Uint64(m.term) && Uint64(m.prevIndex) && Uint64(m.prevTerm) && Uint64(m.leaderCommit)
    && Uint64(|m.leaderId|) && Uint64(|m.entries|)
    && forall i :: 0 <= i < |m.entries| ==> EntryWords(m.entries[i])
  }

  ghost predicate EntryWords(e: LogEntry) {
    Uint64(e.term) && Uint64(e.index) && Uint64(|e.data|)
  }

  predicate DataFits(es: seq<LogEntry>) {
    forall i :: 0 <= i < |es| ==> |es[i].data| <= MAX_DECODE_LEN
  }

  predicate WithinLimits(m: Message) {
    |m.leaderId| <= MAX_DECODE_LEN && |m.entries| <= MAX_ENTRIES && DataFits(m.entries)
  }

  lemma CappedRoundTrip(s: seq<byte>, rest: seq<byte>)
    requires Uint64(|s|)
    ensures ReadCapped(Prefixed(s) + rest) == if |s| <= MAX_DECODE_LEN then Some(Parsed(s, rest)) else None
  {
    assert Prefixed(s) + rest == Uvarint(|s|) + (s + rest);
    UvarintRoundTrip(|s|, s + rest);
  }

  lemma EntryRoundTrip(e: LogEntry, rest: seq<byte>)
    requires EntryWords(e)
    ensures ReadEntry(EntryBytes(e) + rest) == if |e.data| <= MAX_DECODE_LEN then Some(Parsed(e, rest)) else None
  {
    var c := Prefixed(e.data) + rest;
    var b := [e.kind] + c;
    var a := Uvarint(e.index) + b;
    assert EntryBytes(e) + rest == Uvarint(e.term) + a;
    UvarintRoundTrip(e.term, a);
    UvarintRoundTrip(e.index, b);
    assert b[1..] == c;
    CappedRoundTrip(e.data, rest);
  }

  lemma DataFitsCons(es: seq<LogEntry>)
    requires es != []
    ensures DataFits(es) <==> |es[0].data| <= MAX_DECODE_LEN && DataFits(es[1..])
  {
    assert forall i :: 1 <= i < |es| ==> es[i] == es[1..][i - 1];
  }

  /** Reading back gives the entries and leaves the rest, unless some data is over the cap. */
  ghost predicate ReadsBack(es: seq<LogEntry>, rest: seq<byte>) {
    ReadEntries(EntriesBytes(es) + rest, |es|) == if DataFits(es) then Some(Parsed(es, rest)) else None
  }

  lemma {:induction false} EntriesRoundTrip(es: seq<LogEntry>, rest: seq<byte>)
    requires forall i :: 0 <= i < |es| ==> EntryWords(es[i])
    ensures ReadsBack(es, rest)
    decreases |es|
  {
    if es == [] {
      assert EntriesBytes(es) + rest == rest;
    } else {
      EntriesRoundTrip(es[1..], rest);
      EntriesCons(es[0], es[1..], rest);
      assert [es[0]] + es[1..] == es;
    }
  }

  lemma BytesCons(e: LogEntry, es: seq<LogEntry>, rest: seq<byte>)
    ensures EntriesBytes([e] + es) + rest == EntryBytes(e) + (EntriesBytes(es) + rest)
  {
    assert ([e] + es)[1..] == es;
  }

  /** Bytes b that read as the entry e before `tail`, which reads as es before `rest`. */
  lemma ReadCons(b: seq<byte>, tail: seq<byte>, e: LogEntry, es: seq<LogEntry>, rest: seq<byte>)
    requires ReadEntry(b) == if |e.data| <= MAX_DECODE_LEN then Some(Parsed(e, tail)) else None
    requires ReadEntries(tail, |es|) == if DataFits(es) then Some(Parsed(es, rest)) else None
    ensures ReadEntries(b, |[e] + es|) == if DataFits([e] + es) then Some(Parsed([e] + es, rest)) else None
  {
    DataFitsCons([e] + es);
    assert ([e] + es)[1..] == es;
  }

  lemma EntriesCons(e: LogEntry, es: seq<LogEntry>, rest: seq<byte>)
    requires EntryWords(e) && ReadsBack(es, rest)
    ensures ReadsBack([e] + es, rest)
  {
    var b, tail := EntriesBytes([e] + es) + rest, EntriesBytes(es) + rest;
    assert ReadEntry(b) == if |e.data| <= MAX_DECODE_LEN then Some(Parsed(e, tail)) else None by {
      BytesCons(e, es, rest);
      EntryRoundTrip(e, tail);
    }
    ReadCons(b, tail, e, es, rest);
  }

  lemma BatchRoundTrip(es: seq<LogEntry>)
    requires Uint64(|es|) && forall i :: 0 <= i < |es| ==> EntryWords(es[i])
    ensures ReadBatch(Uvarint(|es|) + EntriesBytes(es)) == if |es| <= MAX_ENTRIES && DataFits(es) then Some(es) else None
  {
    UvarintRoundTrip(|es|, EntriesBytes(es));
    EntriesRoundTrip(es, []);
    assert EntriesBytes(es) + [] == EntriesBytes(es);
  }

  /** Decoding undoes encoding exactly for the messages within the limits; every other message is
      refused. */
  lemma MessageRoundTrip(m: Message)
    requires Words(m)
    ensures ReadMessage(MessageBytes(m)) == if WithinLimits(m) then Some(m) else None
  {
    var e := Uvarint(|m.entries|) + EntriesBytes(m.entries);
    var d := Uvarint(m.leaderCommit) + e;
    var c := Uvarint(m.prevTerm) + d;
    var b := Uvarint(m.prevIndex) + c;
    var a := Prefixed(m.leaderId) + b;
    UvarintRoundTrip(m.term, a);
    CappedRoundTrip(m.leaderId, b);
    UvarintRoundTrip(m.prevIndex, c);
    UvarintRoundTrip(m.prevTerm, d);
    UvarintRoundTrip(m.leaderCommit, e);
    BatchRoundTrip(m.entries);
  }

  // ---------------------------------------------------------------------------
  // The bytes

  /** Term, index, type byte and length-prefixed data of an entry, from offset i on. */
  ghost predicate EntryAt(z: seq<byte>, i: nat, e: LogEntry) {
    FourAt(z, i, Uvarint(e.term), Uvarint(e.index), [e.kind], Uvarint(|e.data|) + e.data)
  }

  /** The entries one after the other, from offset i to the end. */
  ghost predicate EntriesAt(z: seq<byte>, i: nat, es: seq<LogEntry>) {
    && |z| == i + |EntriesBytes(es)|
    && forall k :: 0 <= k < |es| ==> EntryAt(z, i + |EntriesBytes(es[..k])|, es[k])
  }

  lemma EntryLayout(e: LogEntry, rest: seq<byte>)
    ensures EntryAt(EntryBytes(e) + rest, 0, e)
  {
    var t, x, k, d := Uvarint(e.term), Uvarint(e.index), [e.kind], Uvarint(|e.data|) + e.data;
    assert EntryBytes(e) + rest == t + (x + (k + (d + rest)));
    FourParts(t, x, k, d, rest);
  }

  lemma EntryBehind(h: seq<byte>, z: seq<byte>, i: nat, e: LogEntry)
    requires EntryAt(z, i, e)
    ensures EntryAt(h + z, |h| + i, e)
  {
    FourBehind(h, z, i, Uvarint(e.term), Uvarint(e.index), [e.kind], Uvarint(|e.data|) + e.data);
  }

  lemma {:induction false} EntryInBatch(es: seq<LogEntry>, k: nat)
    requires k < |es|
    ensures EntryAt(EntriesBytes(es), |EntriesBytes(es[..k])|, es[k])
    decreases |es|
  {
    if k == 0 {
      EntryLayout(es[0], EntriesBytes(es[1..]));
      assert es[..0] == [];
    } else {
      EntryInBatch(es[1..], k - 1);
      EntryBehind(EntryBytes(es[0]), EntriesBytes(es[1..]), |EntriesBytes(es[1..][..k - 1])|, es[k]);
      assert es[..k][1..] == es[1..][..k - 1] && es[..k][0] == es[0];
    }
  }

  lemma BatchLayout(h: seq<byte>, es: seq<LogEntry>)
    ensures EntriesAt(h + EntriesBytes(es), |h|, es)
  {
    forall k | 0 <= k < |es| ensures EntryAt(h + EntriesBytes(es), |h| + |EntriesBytes(es[..k])|, es[k]) {
      EntryInBatch(es, k);
      EntryBehind(h, EntriesBytes(es), |EntriesBytes(es[..k])|, es[k]);
    }
  }

  /** Every field of a message stands where the format has it: term, leader, previous index and term,
      commit index, number of entries, and behind them the entries. */
  lemma MessageLayout(m: Message)
    ensures SixAt(MessageBytes(m), Uvarint(m.term), Uvarint(|m.leaderId|) + m.leaderId, Uvarint(m.prevIndex), Uvarint(m.prevTerm),
                  Uvarint(m.leaderCommit), Uvarint(|m.entries|))
    ensures EntriesAt(MessageBytes(m), |MessageBytes(m)| - |EntriesBytes(m.entries)|, m.entries)
  {
    var t, l, p, q, c, n, es := Uvarint(m.term), Uvarint(|m.leaderId|) + m.leaderId, Uvarint(m.prevIndex), Uvarint(m.prevTerm),
      Uvarint(m.leaderCommit), Uvarint(|m.entries|), EntriesBytes(m.entries);
    SixParts(t, l, p, q, c, n, es);
    HeaderAssociates(t, l, p, q, c, n, es);
    BatchLayout(t + l + p + q + c + n, m.entries);
  }
}
