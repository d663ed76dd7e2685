/** The key-value state machine of pkg/fsm/kv.go as a value, and what one committed command does
    to it. Iteration order never shows here; KvStore proves that the map loops of the source,
    run in any order, compute exactly this. JSON rendering of replies is a parameter. */
module KvModel {
  import opened LogTypes
  import opened Texts
  import Decimals

  const MAX_REVISION: int := 0x4000_0000_0000_0000
  const HISTORY_SIZE: nat := 1024
  const MAX_RANGE_RESULTS: nat := 10_000
  const MAX_DEDUP_ENTRIES: nat := 10_000

  datatype KeyValue = KeyValue(key: Text, value: Text, createRevision: int, modRevision: int,
                               version: int, expiresAt: int)

  type Data = map<Text, KeyValue>

  datatype Event =
    | Put(key: Text, kv: KeyValue, prev: Option<KeyValue>, revision: int)
    | Deletion(key: Text, prev: Option<KeyValue>, revision: int)

  datatype DedupEntry = DedupEntry(seqNum: nat, result: seq<byte>, order: nat)

  type DedupTable = map<Text, DedupEntry>

  /** `recent` is the content of the event ring, oldest first. */
  datatype Store = Store(data: Data, revision: int, index: nat, clock: int, recent: seq<Event>,
                         dedup: DedupTable)

  // ---------------------------------------------------------------------------
  // Commands and replies

  datatype Target = Value | Version | CreateRevision | ModRevision | OtherTarget
  datatype Relation = Equal | NotEqual | Greater | Less | OtherRelation
  datatype Compare = Compare(key: Text, target: Target, result: Relation, value: Text, rev: int)

  /** Kind 0 puts, kind 1 deletes; the source ignores every other kind. */
  datatype TxnOp = TxnOp(kind: int, key: Text, value: Text)
  datatype TxnRequest = TxnRequest(compare: seq<Compare>, success: seq<TxnOp>, failure: seq<TxnOp>)

  datatype Op = Tick | SetOp | Get | Delete | List | PutOp | GetV2 | Range | Incr | Txn | UnknownOp

  /** An empty client ID means no deduplication. */
  datatype Command = Command(op: Op, key: Text, value: Text, txn: Option<TxnRequest>, client: Text,
                             seqNum: nat, timestamp: int, ttl: int, returnPrev: bool)

  datatype Failure = NotFound | RevisionExhausted | RangeTooLarge | BadDelta | NotANumber | Overflow
    | MissingTxn | UnknownOperation

  datatype TxnResult = TxnResult(kv: Option<KeyValue>, missing: bool)

  datatype Reply =
    | Text(text: Text, prev: Option<KeyValue>)
    | Pair(kv: KeyValue, prev: Option<KeyValue>)
    | Pairs(kvs: seq<KeyValue>)
    | Values(values: seq<Text>)
    | Count(count: nat)
    | Failed(failure: Failure)
    | TxnReply(succeeded: bool, results: seq<TxnResult>, revision: int)

  const OK: Text := [111, 107]

  /** The part of the store commands are executed against. */
  datatype View = View(data: Data, revision: int, clock: int)

  /** What executing a command amounts to, before it is recorded. */
  datatype Effect = Effect(data: Data, revision: int, events: seq<Event>, reply: Reply, mutated: bool)

  function Unchanged(s: View, reply: Reply): Effect {
    Effect(s.data, s.revision, [], reply, false)
  }

  // ---------------------------------------------------------------------------
  // Reading

  function Lookup(data: Data, key: Text): Option<KeyValue> {
    if key in data then Some(data[key]) else None
  }

  predicate Live(clock: int, kv: KeyValue) {
    kv.expiresAt == 0 || kv.expiresAt > clock
  }

  function LiveAt(s: View, key: Text): Option<KeyValue> {
    if key in s.data && Live(s.clock, s.data[key]) then Some(s.data[key]) else None
  }

  function LiveKeys(s: View, prefix: Text): set<Text> {
    set k | k in s.data && prefix <= k && Live(s.clock, s.data[k])
  }

  function Pick(data: Data, keys: seq<Text>): (kvs: seq<KeyValue>)
    requires forall k :: k in keys ==> k in data
    ensures |kvs| == |keys| && forall i :: 0 <= i < |kvs| ==> kvs[i] == data[keys[i]]
  {
    if keys == [] then [] else [data[keys[0]]] + Pick(data, keys[1..])
  }

  function ValuesOf(kvs: seq<KeyValue>): (vs: seq<Text>)
    ensures |vs| == |kvs| && forall i :: 0 <= i < |vs| ==> vs[i] == kvs[i].value
  {
    if kvs == [] then [] else [kvs[0].value] + ValuesOf(kvs[1..])
  }

  predicate Related(actual: int, expected: int, r: Relation) {
    match r
    case Equal => actual == expected
    case NotEqual => actual != expected
    case Greater => actual > expected
    case Less => actual < expected
    case OtherRelation => false
  }

  /** Expired keys count as absent, and absent keys have version and revisions 0. */
  predicate Holds(s: View, c: Compare) {
    var kv := LiveAt(s, c.key);
    match c.target
    case Value =>
      if kv.None? then c.result == NotEqual
      else (c.result == Equal && kv.value.value == c.value) || (c.result == NotEqual && kv.value.value != c.value)
    case Version => Related(if kv.None? then 0 else kv.value.version, c.rev, c.result)
    case CreateRevision => Related(if kv.None? then 0 else kv.value.createRevision, c.rev, c.result)
    case ModRevision => Related(if kv.None? then 0 else kv.value.modRevision, c.rev, c.result)
    case OtherTarget => false
  }

  predicate AllHold(s: View, cs: seq<Compare>) {
    forall i :: 0 <= i < |cs| ==> Holds(s, cs[i])
  }

  // ---------------------------------------------------------------------------
  // Writing

  predicate Exhausted(s: View) {
    s.revision >= MAX_REVISION
  }

  /** The entry a put at revision `rev` stores over `prev`. */
  function Written(key: Text, value: Text, prev: Option<KeyValue>, rev: int, expiresAt: int): KeyValue {
    match prev
    case None => KeyValue(key, value, rev, rev, 1, expiresAt)
    case Some(p) => KeyValue(key, value, p.createRevision, rev, p.version + 1, expiresAt)
  }

  /** A put of one key. */
  function PutEffect(s: View, kv: KeyValue, prev: Option<KeyValue>, reply: Reply): Effect {
    Effect(s.data[kv.key := kv], s.revision + 1, [Put(kv.key, kv, prev, s.revision + 1)], reply, true)
  }

  function DoSet(s: View, cmd: Command): Effect {
    if Exhausted(s) then Unchanged(s, Failed(RevisionExhausted))
    else
      var prev := Lookup(s.data, cmd.key);
      PutEffect(s, Written(cmd.key, cmd.value, prev, s.revision + 1, 0), prev, Reply.Text(cmd.value, None))
  }

  function DoPut(s: View, cmd: Command): Effect {
    if Exhausted(s) then Unchanged(s, Failed(RevisionExhausted))
    else
      var prev := Lookup(s.data, cmd.key);
      var kv := Written(cmd.key, cmd.value, prev, s.revision + 1, if cmd.ttl > 0 then s.clock + cmd.ttl * 1000 else 0);
      PutEffect(s, kv, prev, Pair(kv, if cmd.returnPrev then prev else None))
  }

  function DoDelete(s: View, cmd: Command): Effect {
    var prev := LiveAt(s, cmd.key);
    if prev.None? then Unchanged(s, Failed(NotFound))
    else if Exhausted(s) then Unchanged(s, Failed(RevisionExhausted))
    else
      Effect(s.data - {cmd.key}, s.revision + 1, [Deletion(cmd.key, prev, s.revision + 1)],
             Reply.Text(OK, if cmd.returnPrev then prev else None), true)
  }

  datatype Addition = Sum(sum: Text) | Refused(failure: Failure)

  /** Both operands are base-10 int64 text and so is the sum; a missing counter is 0. */
  function Added(prev: Option<KeyValue>, delta: Text): Addition {
    var d := Decimals.Parse(delta);
    var cur := if prev.None? then Some(0) else Decimals.Parse(prev.value.value);
    if d.None? then Refused(BadDelta)
    else if cur.None? then Refused(NotANumber)
    else if !Int64(cur.value + d.value) then Refused(Overflow)
    else Sum(Decimals.Format(cur.value + d.value))
  }

  /** An expired counter starts over, from 0 and as a fresh key. */
  function DoIncr(s: View, cmd: Command): Effect {
    var prev := LiveAt(s, cmd.key);
    SumEffect(s, cmd.key, prev, Added(prev, cmd.value))
  }

  function SumEffect(s: View, key: Text, prev: Option<KeyValue>, added: Addition): Effect {
    if Exhausted(s) then Unchanged(s, Failed(RevisionExhausted))
    else if added.Refused? then Unchanged(s, Failed(added.failure))
    else
      var kv := Written(key, added.sum, prev, s.revision + 1, 0);
      PutEffect(s, kv, prev, Pair(kv, None))
  }

  function Expired(s: View): set<Text> {
    set k | k in s.data && 0 < s.data[k].expiresAt <= s.clock
  }

  function Deletions(data: Data, keys: seq<Text>, rev: int): (es: seq<Event>)
    ensures |es| == |keys| && forall i :: 0 <= i < |es| ==> es[i] == Deletion(keys[i], Lookup(data, keys[i]), rev)
  {
    if keys == [] then [] else [Deletion(keys[0], Lookup(data, keys[0]), rev)] + Deletions(data, keys[1..], rev)
  }

  /** All expired keys go in one revision, their events in key order. */
  ghost function DoTick(s: View): Effect {
    var gone := Expired(s);
    if gone == {} || Exhausted(s) then Unchanged(s, Count(0))
    else Effect(s.data - gone, s.revision + 1, Deletions(s.data, Sorted(gone), s.revision + 1), Count(|gone|), false)
  }

  // ---------------------------------------------------------------------------
  // Transactions

  function TxnPut(data: Data, op: TxnOp, rev: int): KeyValue {
    Written(op.key, op.value, Lookup(data, op.key), rev, 0)
  }

  function OpData(data: Data, op: TxnOp, rev: int): Data {
    if op.kind == 0 then data[op.key := TxnPut(data, op, rev)]
    else if op.kind == 1 then data - {op.key}
    else data
  }

  function OpEvents(data: Data, op: TxnOp, rev: int): seq<Event> {
    if op.kind == 0 then [Put(op.key, TxnPut(data, op, rev), Lookup(data, op.key), rev)]
    else if op.kind == 1 then [Deletion(op.key, Lookup(data, op.key), rev)]
    else []
  }

  function OpResults(data: Data, op: TxnOp, rev: int): seq<TxnResult> {
    if op.kind == 0 then [TxnResult(Some(TxnPut(data, op, rev)), false)]
    else if op.kind == 1 then [TxnResult(Lookup(data, op.key), false)]
    else []
  }

  /** Operations run in order, each seeing the ones before it, all at one revision. */
  function OpsData(data: Data, ops: seq<TxnOp>, rev: int): Data {
    if ops == [] then data else OpData(OpsData(data, ops[..|ops| - 1], rev), ops[|ops| - 1], rev)
  }

  function OpsEvents(data: Data, ops: seq<TxnOp>, rev: int): seq<Event> {
    if ops == [] then [] else
      var front := ops[..|ops| - 1];
      OpsEvents(data, front, rev) + OpEvents(OpsData(data, front, rev), ops[|ops| - 1], rev)
  }

  function OpsResults(data: Data, ops: seq<TxnOp>, rev: int): seq<TxnResult> {
    if ops == [] then [] else
      var front := ops[..|ops| - 1];
      OpsResults(data, front, rev) + OpResults(OpsData(data, front, rev), ops[|ops| - 1], rev)
  }

  /** A delete of a key that is missing before the transaction starts. */
  predicate Doomed(data: Data, op: TxnOp) {
    op.kind == 1 && op.key !in data
  }

  predicate AnyDoomed(data: Data, ops: seq<TxnOp>) {
    exists op :: op in ops && Doomed(data, op)
  }

  function Verdicts(data: Data, ops: seq<TxnOp>): (rs: seq<TxnResult>)
    ensures |rs| == |ops| && forall i :: 0 <= i < |rs| ==> rs[i] == TxnResult(None, Doomed(data, ops[i]))
  {
    if ops == [] then [] else [TxnResult(None, Doomed(data, ops[0]))] + Verdicts(data, ops[1..])
  }

  function Branch(s: View, req: TxnRequest): seq<TxnOp> {
    if AllHold(s, req.compare) then req.success else req.failure
  }

  function Executed(s: View, ops: seq<TxnOp>, succeeded: bool): Effect {
    var rev := s.revision + 1;
    Effect(OpsData(s.data, ops, rev), rev, OpsEvents(s.data, ops, rev),
           TxnReply(succeeded, OpsResults(s.data, ops, rev), rev), true)
  }

  /** A transaction that does nothing still counts as a mutation for the dedup table. */
  function Idle(s: View, succeeded: bool, results: seq<TxnResult>): Effect {
    Effect(s.data, s.revision, [], TxnReply(succeeded, results, s.revision), true)
  }

  /** All or nothing: one doomed operation aborts the whole branch. */
  function DoTxn(s: View, req: TxnRequest): Effect {
    var ops, succeeded := Branch(s, req), AllHold(s, req.compare);
    if ops == [] then Idle(s, succeeded, [])
    else if Exhausted(s) then Idle(s, false, [])
    else if AnyDoomed(s.data, ops) then Idle(s, false, Verdicts(s.data, ops))
    else Executed(s, ops, succeeded)
  }

  // ---------------------------------------------------------------------------
  // Apply

  ghost function Execute(s: View, cmd: Command): Effect {
    match cmd.op
    case Tick => DoTick(s)
    case SetOp => DoSet(s, cmd)
    case Get =>
      var kv := LiveAt(s, cmd.key);
      Unchanged(s, if kv.None? then Failed(NotFound) else Reply.Text(kv.value.value, None))
    case Delete => DoDelete(s, cmd)
    case List => Unchanged(s, Values(ValuesOf(Pick(s.data, Sorted(LiveKeys(s, []))))))
    case PutOp => DoPut(s, cmd)
    case GetV2 =>
      var kv := LiveAt(s, cmd.key);
      Unchanged(s, if kv.None? then Failed(NotFound) else Pair(kv.value, None))
    case Range =>
      var keys := LiveKeys(s, cmd.key);
      Unchanged(s, if |keys| > MAX_RANGE_RESULTS then Failed(RangeTooLarge) else Pairs(Pick(s.data, Sorted(keys))))
    case Incr => DoIncr(s, cmd)
    case Txn => if cmd.txn.None? then Unchanged(s, Failed(MissingTxn)) else DoTxn(s, cmd.txn.value)
    case UnknownOp => Unchanged(s, Failed(UnknownOperation))
  }

  /** The ring keeps the newest HISTORY_SIZE events. */
  function Newest(es: seq<Event>): seq<Event> {
    if |es| > HISTORY_SIZE then es[|es| - HISTORY_SIZE..] else es
  }

  function ViewOf(s: Store): View {
    View(s.data, s.revision, s.clock)
  }

  function Clocked(s: Store, cmd: Command): Store {
    s.(index := s.index + 1, clock := if cmd.timestamp > s.clock then cmd.timestamp else s.clock)
  }

  /** Anything at or below the client's highest recorded sequence number is a retry. */
  predicate Stale(s: Store, cmd: Command) {
    cmd.client != [] && cmd.client in s.dedup && s.dedup[cmd.client].seqNum >= cmd.seqNum
  }

  // Eviction order: least (order, client ID).
  predicate Older(a: DedupEntry, aId: Text, b: DedupEntry, bId: Text) {
    a.order < b.order || (a.order == b.order && Texts.Less(aId, bId))
  }

  predicate IsOldest(d: DedupTable, id: Text) {
    id in d && forall o :: o in d && o != id ==> Older(d[id], id, d[o], o)
  }

  lemma {:induction false} OldestExists(d: DedupTable) returns (id: Text)
    requires d != map[]
    ensures IsOldest(d, id)
    decreases |d|
  {
    var x :| x in d;
    var rest := d - {x};
    if rest == map[] {
      assert forall o :: o in d ==> o == x || o in rest;
      return x;
    }
    assert |rest| < |d| by {
      assert rest.Keys == d.Keys - {x};
    }
    var o := OldestExists(rest);
    LessTotal(x, o);
    if Older(d[x], x, d[o], o) {
      forall p | p in d && p != x ensures Older(d[x], x, d[p], p) {
        if p != o {
          assert p in rest;
          if d[x].order == d[o].order == d[p].order {
            LessTrans(x, o, p);
          }
        }
      }
      return x;
    }
    assert forall p :: p in d && p != o && p != x ==> p in rest;
    id := o;
  }

  lemma OldestUnique(d: DedupTable, a: Text, b: Text)
    requires IsOldest(d, a) && IsOldest(d, b)
    ensures a == b
  {
    if a != b && d[a].order == d[b].order {
      LessAsymmetric(a, b);
    }
  }

  ghost function Oldest(d: DedupTable): (id: Text)
    requires d != map[]
    ensures IsOldest(d, id)
  {
    OldestThere(d);
    var id :| IsOldest(d, id);
    id
  }

  lemma OldestThere(d: DedupTable)
    requires d != map[]
    ensures exists id :: IsOldest(d, id)
  {
    var id := OldestExists(d);
  }

  ghost function Evicted(d: DedupTable): DedupTable
    decreases |d|
  {
    if |d| <= MAX_DEDUP_ENTRIES then d
    else
      var id := Oldest(d);
      assert (d - {id}).Keys == d.Keys - {id};
      Evicted(d - {id})
  }

  type Render = Reply -> seq<byte>

  /** One committed command: the next state and the bytes returned for it. */
  ghost function Apply(render: Render, s: Store, cmd: Command): (Store, seq<byte>) {
    var t := Clocked(s, cmd);
    if Stale(t, cmd) then (t, t.dedup[cmd.client].result)
    else
      var e := Execute(ViewOf(t), cmd);
      (Recorded(t, cmd, e, render(e.reply)), render(e.reply))
  }

  function Performed(t: Store, e: Effect): Store {
    t.(data := e.data, revision := e.revision, recent := Newest(t.recent + e.events))
  }

  ghost function Recorded(t: Store, cmd: Command, e: Effect, result: seq<byte>): Store {
    var u := Performed(t, e);
    if e.mutated && cmd.client != [] then
      u.(dedup := Evicted(u.dedup[cmd.client := DedupEntry(cmd.seqNum, result, t.index)]))
    else u
  }

  const EMPTY_STORE := Store(map[], 0, 0, 0, [], map[])

  ghost function ApplyAll(render: Render, s: Store, log: seq<Command>): Store {
    if log == [] then s else Apply(render, ApplyAll(render, s, log[..|log| - 1]), log[|log| - 1]).0
  }

  /** The bytes returned for each command of a log. */
  ghost function Replies(render: Render, s: Store, log: seq<Command>): (rs: seq<seq<byte>>)
    ensures |rs| == |log|
  {
    if log == [] then [] else
      var front := log[..|log| - 1];
      Replies(render, s, front) + [Apply(render, ApplyAll(render, s, front), log[|log| - 1]).1]
  }
}
