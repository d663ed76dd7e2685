/** The binary form of a key-value command (pkg/fsm/kv.go:1201-1296), with its optional TTL tail.
    Transactions and commands asking for the previous value travel as JSON and are not modelled. */
module KvCommandCodec {
  import opened LogTypes
  import opened Texts
  import opened KvModel
  import opened Varints

  const COMMAND_MAGIC: byte := 1

  /** The command as it is on the wire, its operation still a name. */
  datatype Wire = Wire(op: Text, key: Text, value: Text, client: Text, seqNum: nat, timestamp: int, ttl: int)

  datatype Decoded = Decoded(wire: Wire) | Corrupt | JsonForm

  // ---------------------------------------------------------------------------
  // Encoding

  /** uint64(int64) and back: two's complement. */
  function ToWord(n: int): int {
    if n >= 0 then n else n + TWO_64
  }

  function FromWord(u: nat): int {
    if u < TWO_64 / 2 then u else u - TWO_64
  }

  predicate HasTail(w: Wire) {
    w.timestamp != 0 || w.ttl != 0
  }

  function TailBytes(w: Wire): seq<byte>
    requires Int64(w.ttl)
  {
    if HasTail(w) then Varint(w.timestamp) + Uvarint(ToWord(w.ttl)) else []
  }

  function WireBytes(w: Wire): seq<byte>
    requires Int64(w.ttl)
  {
    [COMMAND_MAGIC] + (Prefixed(w.op) + (Prefixed(w.key) + (Prefixed(w.value) + (Prefixed(w.client) +
      (Uvarint(w.seqNum) + TailBytes(w))))))
  }

  /** encodeKVCommand: the buffer grows field by field. */
  method Encode(w: Wire) returns (buf: seq<byte>)
    requires Int64(w.ttl)
    ensures buf == WireBytes(w)
  {
    var names := Prefixed(w.op);
    names := names + Prefixed(w.key);
    var values := Prefixed(w.value);
    values := values + Prefixed(w.client);
    var tail := Uvarint(w.seqNum);
    if w.timestamp != 0 || w.ttl != 0 {
      tail := tail + (Varint(w.timestamp) + Uvarint(ToWord(w.ttl)));
    }
    assert tail == Uvarint(w.seqNum) + TailBytes(w);
    Regroup(Prefixed(w.op), Prefixed(w.key), Prefixed(w.value), Prefixed(w.client), tail);
    buf := [COMMAND_MAGIC] + (names + (values + tail));
  }

  lemma Regroup(a: seq<byte>, b: seq<byte>, c: seq<byte>, d: seq<byte>, e: seq<byte>)
    ensures (a + b) + ((c + d) + e) == a + (b + (c + (d + e)))
  {
    assert (c + d) + e == c + (d + e);
  }

  // ---------------------------------------------------------------------------
  // Decoding

  function ReadTail(b: seq<byte>, w: Wire): Decoded {
    if b == [] then Decoded(w)
    else
      match ReadVarint(b)
      case None => Corrupt
      case Some(ts) =>
        match ReadUvarint(ts.rest)
        case None => Corrupt
        case Some(ttl) => Decoded(w.(timestamp := ts.value, ttl := FromWord(ttl.value)))
  }

  /** The four strings and the sequence number. */
  function ReadFields(b: seq<byte>): Reader<Wire> {
    var op :- ReadPrefixed(b);
    var key :- ReadPrefixed(op.rest);
    var value :- ReadPrefixed(key.rest);
    var client :- ReadPrefixed(value.rest);
    var seqNum :- ReadUvarint(client.rest);
    Some(Parsed(Wire(op.value, key.value, value.value, client.value, seqNum.value, 0, 0), seqNum.rest))
  }

  /** decodeKVCommand: whatever follows the sequence number must be a TTL tail. */
  function Decode(data: seq<byte>): Decoded {
    if data == [] then Corrupt
    else if data[0] != COMMAND_MAGIC then JsonForm
    else
      match ReadFields(data[1..])
      case None => Corrupt
      case Some(p) => ReadTail(p.rest, p.value)
  }

  // ---------------------------------------------------------------------------
  // Round trip

  /** Numbers and lengths are within the machine words the source keeps them in. */
  ghost predicate Fits(w: Wire) {
    && Uint64(|w.op|) && Uint64(|w.key|) && Uint64(|w.value|) && Uint64(|w.client|)
    && Uint64(w.seqNum) && Int64(w.timestamp) && Int64(w.ttl)
  }

  lemma FieldsRoundTrip(w: Wire, rest: seq<byte>)
    requires Fits(w)
    ensures ReadFields(Prefixed(w.op) + (Prefixed(w.key) + (Prefixed(w.value) + (Prefixed(w.client) + (Uvarint(w.seqNum) + rest)))))
         == Some(Parsed(w.(timestamp := 0, ttl := 0), rest))
  {
    var d := Uvarint(w.seqNum) + rest;
    var c := Prefixed(w.client) + d;
    var b := Prefixed(w.value) + c;
    var a := Prefixed(w.key) + b;
    PrefixedRoundTrip(w.op, a);
    PrefixedRoundTrip(w.key, b);
    PrefixedRoundTrip(w.value, c);
    PrefixedRoundTrip(w.client, d);
    UvarintRoundTrip(w.seqNum, rest);
  }

  lemma TailRoundTrip(w: Wire)
    requires Int64(w.timestamp) && Int64(w.ttl)
    ensures ReadTail(TailBytes(w), w.(timestamp := 0, ttl := 0)) == Decoded(w)
  {
    if HasTail(w) {
      VarintRoundTrip(w.timestamp, Uvarint(ToWord(w.ttl)));
      UvarintRoundTrip(ToWord(w.ttl), []);
      assert Uvarint(ToWord(w.ttl)) + [] == Uvarint(ToWord(w.ttl));
    }
  }

  /** Decoding undoes encoding for every command, with or without a TTL tail. */
  lemma WireRoundTrip(w: Wire)
    requires Fits(w)
    ensures Decode(WireBytes(w)) == Decoded(w)
  {
    FieldsRoundTrip(w, TailBytes(w));
    TailRoundTrip(w);
    assert WireBytes(w)[1..]
        == Prefixed(w.op) + (Prefixed(w.key) + (Prefixed(w.value) + (Prefixed(w.client) + (Uvarint(w.seqNum) + TailBytes(w)))));
  }

  // ---------------------------------------------------------------------------
  // Operations by name

  function OpName(op: Op): Text {
    match op
    case Tick => [116, 105, 99, 107]
    case SetOp => [115, 101, 116]
    case Get => [103, 101, 116]
    case Delete => [100, 101, 108, 101, 116, 101]
    case List => [108, 105, 115, 116]
    case PutOp => [112, 117, 116]
    case GetV2 => [103, 101, 116, 95, 118, 50]
    case Range => [114, 97, 110, 103, 101]
    case Incr => [105, 110, 99, 114]
    case Txn => [116, 120, 110]
    case UnknownOp => []
  }

  function NamedOp(name: Text): Op {
    if name == OpName(Tick) then Tick
    else if name == OpName(SetOp) then SetOp
    else if name == OpName(Get) then Get
    else if name == OpName(Delete) then Delete
    else if name == OpName(List) then List
    else if name == OpName(PutOp) then PutOp
    else if name == OpName(GetV2) then GetV2
    else if name == OpName(Range) then Range
    else if name == OpName(Incr) then Incr
    else if name == OpName(Txn) then Txn
    else UnknownOp
  }

  function ToWire(cmd: Command): Wire {
    Wire(OpName(cmd.op), cmd.key, cmd.value, cmd.client, cmd.seqNum, cmd.timestamp, cmd.ttl)
  }

  /** The command the store executes for a decoded one. */
  function FromWire(w: Wire): Command {
    Command(NamedOp(w.op), w.key, w.value, None, w.client, w.seqNum, w.timestamp, w.ttl, false)
  }

  lemma NamesAreDistinct(op: Op)
    ensures NamedOp(OpName(op)) == op
  {
    match op
    case Tick =>
    case SetOp => assert OpName(SetOp)[0] != OpName(Get)[0];
    case Get => assert OpName(SetOp)[0] != OpName(Get)[0];
    case Delete =>
    case List => assert OpName(List)[0] != OpName(Tick)[0];
    case PutOp => assert OpName(PutOp)[0] != OpName(SetOp)[0] && OpName(PutOp)[0] != OpName(Get)[0];
    case GetV2 => assert OpName(GetV2)[0] != OpName(Delete)[0];
    case Range =>
    case Incr => assert OpName(Incr)[0] != OpName(Tick)[0] && OpName(Incr)[0] != OpName(List)[0];
    case Txn => assert OpName(Txn)[0] != OpName(SetOp)[0] && OpName(Txn)[0] != OpName(Get)[0] && OpName(Txn)[0] != OpName(PutOp)[0];
    case UnknownOp =>
  }

  /** A command without a transaction payload or a request for the previous value reaches the store
      as it was sent. */
  lemma CommandRoundTrip(cmd: Command)
    requires cmd.txn == None && !cmd.returnPrev && Fits(ToWire(cmd))
    ensures Decode(WireBytes(ToWire(cmd))) == Decoded(ToWire(cmd)) && FromWire(ToWire(cmd)) == cmd
  {
    WireRoundTrip(ToWire(cmd));
    NamesAreDistinct(cmd.op);
  }

  // ---------------------------------------------------------------------------
  // The bytes

  /** What follows the sequence number: nothing when timestamp and TTL are 0, else the timestamp and then
      the TTL as an unsigned word. */
  ghost predicate TailIs(tail: seq<byte>, w: Wire) {
    if w.timestamp == 0 && w.ttl == 0 then tail == []
    else
      var word := if w.ttl < 0 then w.ttl + TWO_64 else w.ttl;
      word >= 0 && tail == Varint(w.timestamp) + Uvarint(word)
  }

  /** Every field of a command stands where the format has it: the format byte 1, operation, key, value,
      client and sequence number, and behind them the tail. */
  lemma WireLayout(w: Wire) returns (tail: seq<byte>)
    requires Int64(w.ttl)
    ensures SixAt(WireBytes(w), [1], Uvarint(|w.op|) + w.op, Uvarint(|w.key|) + w.key, Uvarint(|w.value|) + w.value,
                  Uvarint(|w.client|) + w.client, Uvarint(w.seqNum))
    ensures |tail| <= |WireBytes(w)| && WireBytes(w)[|WireBytes(w)| - |tail|..] == tail && TailIs(tail, w)
    ensures |WireBytes(w)| == 1 + |Uvarint(|w.op|) + w.op| + |Uvarint(|w.key|) + w.key| + |Uvarint(|w.value|) + w.value|
                              + |Uvarint(|w.client|) + w.client| + |Uvarint(w.seqNum)| + |tail|
  {
    tail := TailBytes(w);
    SixParts([1], Uvarint(|w.op|) + w.op, Uvarint(|w.key|) + w.key, Uvarint(|w.value|) + w.value,
             Uvarint(|w.client|) + w.client, Uvarint(w.seqNum), tail);
  }
}
