/** The KVStore object of pkg/fsm/kv.go: maps, counters and the event ring changed in place. Every
    map loop picks its keys in an arbitrary order, so each method proved equal to a function of
    KvModel is a proof that replicas cannot diverge. */
module KvStore {
  import opened LogTypes
  import opened Texts
  import opened KvModel
  import Decimals
  import KvChangelog

  /** The ring buffer of past events. `recent` is its content, oldest first; Valid keeps the
      layout of the slots folded in Ring, away from the store's own proofs. */
  class EventRing {
    const slots: array<Event>
    var pos: nat
    var len: nat
    ghost var recent: seq<Event>

    ghost predicate Valid()
      reads this, slots
    {
      && slots.Length == HISTORY_SIZE && pos < HISTORY_SIZE && |recent| == len <= HISTORY_SIZE
      && Ring(slots[..], pos, len, recent)
    }

    constructor ()
      ensures Valid() && recent == [] && fresh(slots)
    {
      slots := new Event[HISTORY_SIZE](_ => Deletion([], None, 0));
      pos, len, recent := 0, 0, [];
    }

    method Remember(ev: Event)
      requires Valid()
      modifies this, slots
      ensures Valid() && recent == Newest(old(recent) + [ev])
    {
      Pushed(slots[..], pos, len, recent, ev);
      PosWraps(pos, slots.Length);
      ghost var after := slots[..][pos := ev];
      slots[pos] := ev;
      pos := (pos + 1) % slots.Length;
      if len < slots.Length {
        len := len + 1;
      }
      recent := Newest(recent + [ev]);
      assert slots[..] == after;
    }

    method Emit(events: seq<Event>)
      requires Valid()
      modifies this, slots
      ensures Valid() && recent == Newest(old(recent) + events)
    {
      ghost var was := recent;
      NewestOfNone(was, events);
      for i := 0 to |events|
        invariant Valid() && recent == NewestUpTo(was, events, i)
      {
        NewestNext(was, events, i);
        Remember(events[i]);
      }
      assert events[..|events|] == events;
    }

    /** GetHistory: walk from the oldest slot, keeping what is newer than `since`. */
    method Since(since: int) returns (result: seq<Event>)
      requires Valid()
      ensures result == KvChangelog.After(recent, since)
    {
      result := [];
      if len == 0 {
        return;
      }
      var start := (pos - len + slots.Length) % slots.Length;
      for i := 0 to len
        invariant result == KvChangelog.After(recent[..i], since)
      {
        SlotWraps(pos, len, i, slots.Length);
        InSlot(slots[..], pos, len, recent, i);
        var ev := slots[(start + i) % slots.Length];
        AfterNext(recent, i, since);
        if ev.revision > since {
          result := result + [ev];
        }
      }
      assert recent[..len] == recent;
    }
  }

  /** Where the i-th oldest of len events sits when the next one goes to pos. */
  function Slot(pos: nat, len: nat, i: nat): int {
    if pos + i >= len then pos + i - len else pos + i - len + HISTORY_SIZE
  }

  /** The events of a ring, oldest first, in its slots. */
  ghost predicate LaidOut(slots: seq<Event>, pos: nat, len: nat, recent: seq<Event>) {
    && |slots| == HISTORY_SIZE && pos < HISTORY_SIZE && len <= HISTORY_SIZE
    && (len < HISTORY_SIZE ==> pos == len)
    && |recent| == len
    && forall i :: 0 <= i < len ==> recent[i] == slots[Slot(pos, len, i)]
  }

  function NextPos(pos: nat): nat {
    (pos + 1) % HISTORY_SIZE
  }

  lemma PushedBehind(slots: seq<Event>, pos: nat, recent: seq<Event>, ev: Event)
    requires LaidOut(slots, pos, |recent|, recent) && |recent| < HISTORY_SIZE
    ensures LaidOut(slots[pos := ev], NextPos(pos), |recent| + 1, Newest(recent + [ev]))
  {
  }

  /** In a full ring the newest event takes the slot of the oldest. */
  lemma PushedOver(slots: seq<Event>, pos: nat, recent: seq<Event>, ev: Event)
    requires LaidOut(slots, pos, HISTORY_SIZE, recent)
    ensures LaidOut(slots[pos := ev], NextPos(pos), HISTORY_SIZE, Newest(recent + [ev]))
  {
    var now := Newest(recent + [ev]);
    assert now == recent[1..] + [ev];
    forall i | 0 <= i < HISTORY_SIZE ensures now[i] == slots[pos := ev][Slot(NextPos(pos), HISTORY_SIZE, i)] {
      if i < HISTORY_SIZE - 1 {
        assert now[i] == recent[i + 1] == slots[Slot(pos, HISTORY_SIZE, i + 1)];
      }
    }
  }

  /** LaidOut, folded as RaftRefinement folds its invariant: a proof sees the slots only when it
      mentions Sealed. */
  ghost predicate Sealed(seal: bool, slots: seq<Event>, pos: nat, len: nat, recent: seq<Event>) {
    seal ==> LaidOut(slots, pos, len, recent)
  }

  ghost predicate Ring(slots: seq<Event>, pos: nat, len: nat, recent: seq<Event>) {
    forall seal: bool :: Sealed(seal, slots, pos, len, recent)
  }

  lemma Pushed(slots: seq<Event>, pos: nat, len: nat, recent: seq<Event>, ev: Event)
    requires Ring(slots, pos, len, recent) && |slots| == HISTORY_SIZE && pos < HISTORY_SIZE
    ensures Ring(slots[pos := ev], NextPos(pos), if len < HISTORY_SIZE then len + 1 else len, Newest(recent + [ev]))
  {
    assert Sealed(true, slots, pos, len, recent);
    if len < HISTORY_SIZE {
      PushedBehind(slots, pos, recent, ev);
    } else {
      PushedOver(slots, pos, recent, ev);
    }
  }

  lemma InSlot(slots: seq<Event>, pos: nat, len: nat, recent: seq<Event>, i: nat)
    requires Ring(slots, pos, len, recent) && i < len
    ensures 0 <= Slot(pos, len, i) < |slots| && i < |recent| && slots[Slot(pos, len, i)] == recent[i]
  {
    assert Sealed(true, slots, pos, len, recent);
  }

  lemma PosWraps(pos: nat, n: nat)
    requires n == HISTORY_SIZE
    ensures (pos + 1) % n == NextPos(pos)
  {
  }

  function NewestUpTo(was: seq<Event>, events: seq<Event>, i: nat): seq<Event>
    requires i <= |events|
  {
    Newest(was + events[..i])
  }

  lemma NewestOfNone(was: seq<Event>, events: seq<Event>)
    requires |was| <= HISTORY_SIZE
    ensures NewestUpTo(was, events, 0) == was
  {
    assert was + events[..0] == was;
  }

  lemma NewestNext(was: seq<Event>, events: seq<Event>, i: nat)
    requires i < |events|
    ensures NewestUpTo(was, events, i + 1) == Newest(NewestUpTo(was, events, i) + [events[i]])
  {
    KvChangelog.NewestTwice(was + events[..i], [events[i]]);
    assert was + events[..i] + [events[i]] == was + events[..i + 1];
  }

  lemma AfterNext(es: seq<Event>, i: nat, since: int)
    requires i < |es|
    ensures KvChangelog.After(es[..i + 1], since)
         == KvChangelog.After(es[..i], since) + if es[i].revision > since then [es[i]] else []
  {
    assert es[..i + 1][..i] == es[..i];
  }

  lemma SlotWraps(pos: nat, len: nat, i: nat, n: nat)
    requires pos < HISTORY_SIZE && i < len <= HISTORY_SIZE == n
    ensures ((pos - len + n) % n + i) % n == Slot(pos, len, i)
  {
  }

  class KVStore {
    const render: Render
    const ring: EventRing
    var data: Data
    var revision: int
    var index: nat
    var clock: int
    var dedup: DedupTable

    ghost function Value(): Store
      reads this, ring
    {
      Store(data, revision, index, clock, ring.recent, dedup)
    }

    constructor (render: Render)
      ensures ring.Valid() && Value() == EMPTY_STORE && fresh(ring) && fresh(ring.slots) && this.render == render
    {
      this.render := render;
      data, revision, index, clock, dedup := map[], 0, 0, 0, map[];
      ring := new EventRing();
    }

    // -------------------------------------------------------------------------
    // Reading

    ghost function Seen(): View
      reads this
    {
      View(data, revision, clock)
    }

    method LiveEntry(key: Text) returns (kv: Option<KeyValue>)
      ensures kv == LiveAt(Seen(), key)
    {
      if key !in data || !(data[key].expiresAt == 0 || data[key].expiresAt > clock) {
        return None;
      }
      return Some(data[key]);
    }

    method PickAll(keys: seq<Text>) returns (pairs: seq<KeyValue>)
      requires forall k :: k in keys ==> k in data
      ensures pairs == Pick(data, keys)
    {
      pairs := [];
      for i := 0 to |keys|
        invariant |pairs| == i && forall j :: 0 <= j < i ==> pairs[j] == data[keys[j]]
      {
        pairs := pairs + [data[keys[i]]];
      }
    }

    /** The values of all live keys in key order. */
    method ListValues() returns (values: seq<Text>)
      ensures values == ValuesOf(Pick(data, Sorted(LiveKeys(Seen(), []))))
    {
      var keys := [];
      var todo := data.Keys;
      ghost var live := LiveKeys(Seen(), []);
      while todo != {}
        invariant todo <= data.Keys && Visits(keys, live - todo)
        decreases todo
      {
        var k :| k in todo;
        VisitOne(keys, live, todo, k);
        todo := todo - {k};
        if Live(clock, data[k]) {
          keys := keys + [k];
        }
      }
      assert live - {} == live;
      keys := Sort(keys, live);
      var pairs := PickAll(keys);
      values := [];
      for i := 0 to |pairs|
        invariant |values| == i && forall j :: 0 <= j < i ==> values[j] == pairs[j].value
      {
        values := values + [pairs[i].value];
      }
    }

    /** The live entries under a prefix in key order, or nothing once there are too many. */
    method RangePairs(prefix: Text) returns (kvs: Option<seq<KeyValue>>)
      ensures var keys := LiveKeys(Seen(), prefix);
              kvs == if |keys| > MAX_RANGE_RESULTS then None else Some(Pick(data, Sorted(keys)))
    {
      var keys := [];
      var todo := data.Keys;
      ghost var live := LiveKeys(Seen(), prefix);
      while todo != {}
        invariant todo <= data.Keys && Visits(keys, live - todo) && |keys| <= MAX_RANGE_RESULTS
        decreases todo
      {
        var k :| k in todo;
        if prefix <= k && Live(clock, data[k]) {
          if |keys| >= MAX_RANGE_RESULTS {
            TooMany(keys, k, live, todo);
            return None;
          }
          VisitOne(keys, live, todo, k);
          keys := keys + [k];
        } else {
          VisitOne(keys, live, todo, k);
        }
        todo := todo - {k};
      }
      assert live - {} == live;
      VisitCount(keys, live);
      keys := Sort(keys, live);
      var pairs := PickAll(keys);
      return Some(pairs);
    }

    // -------------------------------------------------------------------------
    // Writing

    method ApplyPut(key: Text, value: Text, prev: Option<KeyValue>, expiresAt: int) returns (kv: KeyValue)
      modifies this`data, this`revision
      ensures kv == Written(key, value, prev, old(revision) + 1, expiresAt)
      ensures data == old(data)[key := kv] && revision == old(revision) + 1
    {
      revision := revision + 1;
      var cr, ver;
      if prev.Some? {
        cr, ver := prev.value.createRevision, prev.value.version + 1;
      } else {
        cr, ver := revision, 1;
      }
      kv := KeyValue(key, value, cr, revision, ver, expiresAt);
      data := data[key := kv];
    }

    /** A put with its event. */
    method StorePut(key: Text, value: Text, prev: Option<KeyValue>, expiresAt: int) returns (kv: KeyValue)
      requires ring.Valid()
      modifies this, ring, ring.slots
      ensures ring.Valid()
      ensures kv == Written(key, value, prev, old(revision) + 1, expiresAt)
      ensures Value() == Performed(old(Value()), PutEffect(old(Seen()), kv, prev, Count(0)))
    {
      kv := ApplyPut(key, value, prev, expiresAt);
      ring.Emit([Put(key, kv, prev, revision)]);
    }

    method ApplySet(cmd: Command) returns (reply: Reply, mutated: bool)
      requires ring.Valid()
      modifies this, ring, ring.slots
      ensures ring.Valid()
      ensures var e := DoSet(old(Seen()), cmd);
              Value() == Performed(old(Value()), e) && reply == e.reply && mutated == e.mutated
    {
      if revision >= MAX_REVISION {
        EmptyEffect();
        return Failed(RevisionExhausted), false;
      }
      var prev := if cmd.key in data then Some(data[cmd.key]) else None;
      var kv := StorePut(cmd.key, cmd.value, prev, 0);
      return Reply.Text(cmd.value, None), true;
    }

    method ApplyPutCommand(cmd: Command) returns (reply: Reply, mutated: bool)
      requires ring.Valid()
      modifies this, ring, ring.slots
      ensures ring.Valid()
      ensures var e := DoPut(old(Seen()), cmd);
              Value() == Performed(old(Value()), e) && reply == e.reply && mutated == e.mutated
    {
      if revision >= MAX_REVISION {
        EmptyEffect();
        return Failed(RevisionExhausted), false;
      }
      var expiresAt := 0;
      if cmd.ttl > 0 {
        expiresAt := clock + cmd.ttl * 1000;
      }
      var prev := if cmd.key in data then Some(data[cmd.key]) else None;
      var kv := StorePut(cmd.key, cmd.value, prev, expiresAt);
      return Pair(kv, if cmd.returnPrev then prev else None), true;
    }

    method ApplyDelete(cmd: Command) returns (reply: Reply, mutated: bool)
      requires ring.Valid()
      modifies this, ring, ring.slots
      ensures ring.Valid()
      ensures var e := DoDelete(old(Seen()), cmd);
              Value() == Performed(old(Value()), e) && reply == e.reply && mutated == e.mutated
    {
      EmptyEffect();
      var prev := LiveEntry(cmd.key);
      if prev.None? {
        return Failed(NotFound), false;
      }
      if revision >= MAX_REVISION {
        return Failed(RevisionExhausted), false;
      }
      revision := revision + 1;
      data := data - {cmd.key};
      ring.Emit([Deletion(cmd.key, prev, revision)]);
      return Reply.Text(OK, if cmd.returnPrev then prev else None), true;
    }

    /** The counter arithmetic of "incr", with its overflow test on machine integers. */
    method AddDelta(prev: Option<KeyValue>, delta: Text) returns (r: Addition)
      ensures r == Added(prev, delta)
    {
      var d := Decimals.Parse(delta);
      if d.None? {
        return Refused(BadDelta);
      }
      var cur := 0;
      if prev.Some? {
        var parsed := Decimals.Parse(prev.value.value);
        if parsed.None? {
          return Refused(NotANumber);
        }
        cur := parsed.value;
      }
      if (d.value > 0 && cur > Decimals.MAX_INT64 - d.value) || (d.value < 0 && cur < Decimals.MIN_INT64 - d.value) {
        return Refused(Overflow);
      }
      return Sum(Decimals.Format(cur + d.value));
    }

    method ApplyIncr(cmd: Command) returns (reply: Reply, mutated: bool)
      requires ring.Valid()
      modifies this, ring, ring.slots
      ensures ring.Valid()
      ensures var e := DoIncr(old(Seen()), cmd);
              Value() == Performed(old(Value()), e) && reply == e.reply && mutated == e.mutated
    {
      var prev := LiveEntry(cmd.key);
      var added := AddDelta(prev, cmd.value);
      reply, mutated := StoreSum(cmd.key, prev, added);
    }

    method StoreSum(key: Text, prev: Option<KeyValue>, added: Addition) returns (reply: Reply, mutated: bool)
      requires ring.Valid()
      modifies this, ring, ring.slots
      ensures ring.Valid()
      ensures var e := SumEffect(old(Seen()), key, prev, added);
              Value() == Performed(old(Value()), e) && reply == e.reply && mutated == e.mutated
    {
      if revision >= MAX_REVISION {
        EmptyEffect();
        return Failed(RevisionExhausted), false;
      }
      if added.Refused? {
        EmptyEffect();
        return Failed(added.failure), false;
      }
      var kv := StorePut(key, added.sum, prev, 0);
      return Pair(kv, None), true;
    }

    /** Doing nothing leaves the ring as it is. */
    lemma EmptyEffect()
      requires ring.Valid()
      ensures Performed(Value(), Effect(data, revision, [], Failed(NotFound), false)) == Value()
    {
      assert ring.recent + [] == ring.recent;
    }

    // -------------------------------------------------------------------------
    // The sweep

    method FindExpired() returns (keys: seq<Text>)
      ensures Visits(keys, Expired(Seen()))
    {
      keys := [];
      var todo := data.Keys;
      ghost var gone := Expired(Seen());
      while todo != {}
        invariant todo <= data.Keys && Visits(keys, gone - todo)
        decreases todo
      {
        var k :| k in todo;
        VisitOne(keys, gone, todo, k);
        todo := todo - {k};
        if data[k].expiresAt > 0 && data[k].expiresAt <= clock {
          keys := keys + [k];
        }
      }
      assert gone - {} == gone;
    }

    method DeleteAll(keys: seq<Text>, ghost all: set<Text>) returns (events: seq<Event>)
      requires Lists(keys, all)
      modifies this`data
      ensures data == old(data) - all
      ensures events == Deletions(old(data), keys, revision)
    {
      events := [];
      ghost var done := {};
      for i := 0 to |keys|
        invariant data == old(data) - done && forall k :: k in done <==> k in keys[..i]
        invariant |events| == i
        invariant forall j :: 0 <= j < i ==> events[j] == Deletion(keys[j], Lookup(old(data), keys[j]), revision)
      {
        assert keys[..i + 1] == keys[..i] + [keys[i]];
        NotBefore(keys, i);
        var prev := if keys[i] in data then Some(data[keys[i]]) else None;
        data := data - {keys[i]};
        done := done + {keys[i]};
        events := events + [Deletion(keys[i], prev, revision)];
      }
      assert done == all;
    }

    method SweepKeys(expired: seq<Text>, ghost gone: set<Text>)
      requires ring.Valid() && Lists(expired, gone)
      modifies this, ring, ring.slots
      ensures ring.Valid()
      ensures Value() == Performed(old(Value()), Effect(old(data) - gone, old(revision) + 1,
                           Deletions(old(data), expired, old(revision) + 1), Count(0), false))
    {
      revision := revision + 1;
      var events := DeleteAll(expired, gone);
      ring.Emit(events);
    }

    method SweepFound(found: seq<Text>, ghost gone: set<Text>) returns (n: nat)
      requires ring.Valid() && Visits(found, gone) && gone == Expired(Seen()) && |found| == |gone| > 0
      modifies this, ring, ring.slots
      ensures ring.Valid()
      ensures var e := DoTick(old(Seen()));
              Value() == Performed(old(Value()), e) && e.reply == Count(n)
    {
      var expired := Sort(found, gone);
      if revision >= MAX_REVISION {
        EmptyEffect();
        return 0;
      }
      SweepKeys(expired, gone);
      return |expired|;
    }

    method SweepExpired() returns (n: nat)
      requires ring.Valid()
      modifies this, ring, ring.slots
      ensures ring.Valid()
      ensures var e := DoTick(old(Seen()));
              Value() == Performed(old(Value()), e) && e.reply == Count(n)
    {
      ghost var gone := Expired(Seen());
      var expired := FindExpired();
      VisitCount(expired, gone);
      if |expired| == 0 {
        EmptyEffect();
        return 0;
      }
      n := SweepFound(expired, gone);
    }

    // -------------------------------------------------------------------------
    // Transactions

    method EvalCompare(c: Compare) returns (holds: bool)
      ensures holds <==> Holds(Seen(), c)
    {
      var kv := LiveEntry(c.key);
      match c.target
      case Value =>
        if kv.None? {
          return c.result == NotEqual;
        }
        return (c.result == Equal && kv.value.value == c.value) || (c.result == NotEqual && kv.value.value != c.value);
      case Version => return Related(if kv.Some? then kv.value.version else 0, c.rev, c.result);
      case CreateRevision => return Related(if kv.Some? then kv.value.createRevision else 0, c.rev, c.result);
      case ModRevision => return Related(if kv.Some? then kv.value.modRevision else 0, c.rev, c.result);
      case OtherTarget => return false;
    }

    method EvalAll(compare: seq<Compare>) returns (succeeded: bool)
      ensures succeeded <==> AllHold(Seen(), compare)
    {
      for i := 0 to |compare|
        invariant forall j :: 0 <= j < i ==> Holds(Seen(), compare[j])
      {
        var holds := EvalCompare(compare[i]);
        if !holds {
          return false;
        }
      }
      return true;
    }

    /** Pre-validation: the verdicts, if some operation deletes a missing key. */
    method Validate(ops: seq<TxnOp>) returns (verdicts: Option<seq<TxnResult>>)
      ensures verdicts == if AnyDoomed(data, ops) then Some(Verdicts(data, ops)) else None
    {
      for i := 0 to |ops|
        invariant forall j :: 0 <= j < i ==> !Doomed(data, ops[j])
      {
        if ops[i].kind == 1 && ops[i].key !in data {
          assert ops[i] in ops && Doomed(data, ops[i]);
          var results := [];
          for j := 0 to |ops|
            invariant |results| == j
            invariant forall l :: 0 <= l < j ==> results[l] == TxnResult(None, Doomed(data, ops[l]))
          {
            results := results + [TxnResult(None, ops[j].kind == 1 && ops[j].key !in data)];
          }
          assert results == Verdicts(data, ops);
          return Some(results);
        }
      }
      return None;
    }

    /** The operations in order, each on the data the ones before it left. */
    method RunOps(ops: seq<TxnOp>) returns (events: seq<Event>, results: seq<TxnResult>)
      modifies this`data
      ensures data == OpsData(old(data), ops, revision)
      ensures events == OpsEvents(old(data), ops, revision) && results == OpsResults(old(data), ops, revision)
    {
      events, results := [], [];
      for i := 0 to |ops|
        invariant data == OpsData(old(data), ops[..i], revision)
        invariant events == OpsEvents(old(data), ops[..i], revision)
        invariant results == OpsResults(old(data), ops[..i], revision)
      {
        assert ops[..i + 1][..i] == ops[..i];
        var op := ops[i];
        var prev := if op.key in data then Some(data[op.key]) else None;
        if op.kind == 0 {
          var kv := Written(op.key, op.value, prev, revision, 0);
          data := data[op.key := kv];
          events := events + [Put(op.key, kv, prev, revision)];
          results := results + [TxnResult(Some(kv), false)];
        } else if op.kind == 1 {
          data := data - {op.key};
          events := events + [Deletion(op.key, prev, revision)];
          results := results + [TxnResult(prev, false)];
        }
      }
      assert ops[..|ops|] == ops;
    }

    method ApplyTxn(req: TxnRequest) returns (reply: Reply)
      requires ring.Valid()
      modifies this, ring, ring.slots
      ensures ring.Valid()
      ensures var e := DoTxn(old(Seen()), req);
              Value() == Performed(old(Value()), e) && reply == e.reply
    {
      var succeeded := EvalAll(req.compare);
      var ops := req.success;
      if !succeeded {
        ops := req.failure;
      }
      EmptyEffect();
      if |ops| == 0 {
        return TxnReply(succeeded, [], revision);
      }
      if revision >= MAX_REVISION {
        return TxnReply(false, [], revision);
      }
      var verdicts := Validate(ops);
      if verdicts.Some? {
        return TxnReply(false, verdicts.value, revision);
      }
      reply := ExecuteOps(ops, succeeded);
    }

    method ExecuteOps(ops: seq<TxnOp>, succeeded: bool) returns (reply: Reply)
      requires ring.Valid()
      modifies this, ring, ring.slots
      ensures ring.Valid()
      ensures var e := Executed(old(Seen()), ops, succeeded);
              Value() == Performed(old(Value()), e) && reply == e.reply
    {
      revision := revision + 1;
      var events, results := RunOps(ops);
      ring.Emit(events);
      return TxnReply(succeeded, results, revision);
    }

    // -------------------------------------------------------------------------
    // Deduplication

    /** One pass over the table in any order finds the least (order, client ID). */
    method FindOldest() returns (victim: Text)
      requires dedup != map[]
      ensures IsOldest(dedup, victim)
    {
      var todo := dedup.Keys;
      victim :| victim in todo;
      todo := todo - {victim};
      while todo != {}
        invariant todo <= dedup.Keys && victim in dedup && victim !in todo
        invariant forall o :: o in dedup && o !in todo && o != victim ==> Older(dedup[victim], victim, dedup[o], o)
        decreases todo
      {
        var id :| id in todo;
        todo := todo - {id};
        var e := dedup[id];
        if e.order < dedup[victim].order || (e.order == dedup[victim].order && Texts.Less(id, victim)) {
          forall o | o in dedup && o !in todo && o != id ensures Older(e, id, dedup[o], o) {
            if o != victim {
              OlderTrans(e, id, dedup[victim], victim, dedup[o], o);
            }
          }
          victim := id;
        } else {
          LessTotal(id, victim);
        }
      }
    }

    method EvictIfNeeded()
      modifies this`dedup
      ensures dedup == Evicted(old(dedup))
    {
      while |dedup| > MAX_DEDUP_ENTRIES
        invariant Evicted(dedup) == Evicted(old(dedup))
        decreases |dedup|
      {
        var victim := FindOldest();
        OldestUnique(dedup, victim, Oldest(dedup));
        assert (dedup - {victim}).Keys == dedup.Keys - {victim};
        dedup := dedup - {victim};
      }
    }

    // -------------------------------------------------------------------------
    // Apply

    method Dispatch(cmd: Command) returns (reply: Reply, mutated: bool)
      requires ring.Valid()
      modifies this, ring, ring.slots
      ensures ring.Valid()
      ensures var e := Execute(old(Seen()), cmd);
              Value() == Performed(old(Value()), e) && reply == e.reply && mutated == e.mutated
    {
      EmptyEffect();
      mutated := false;
      match cmd.op
      case Tick =>
        var n := SweepExpired();
        reply := Count(n);
      case SetOp => reply, mutated := ApplySet(cmd);
      case Get =>
        var kv := LiveEntry(cmd.key);
        reply := if kv.None? then Failed(NotFound) else Reply.Text(kv.value.value, None);
      case Delete => reply, mutated := ApplyDelete(cmd);
      case List =>
        var values := ListValues();
        reply := Values(values);
      case PutOp => reply, mutated := ApplyPutCommand(cmd);
      case GetV2 =>
        var kv := LiveEntry(cmd.key);
        reply := if kv.None? then Failed(NotFound) else Pair(kv.value, None);
      case Range =>
        var kvs := RangePairs(cmd.key);
        reply := if kvs.None? then Failed(RangeTooLarge) else Pairs(kvs.value);
      case Incr => reply, mutated := ApplyIncr(cmd);
      case Txn =>
        if cmd.txn.None? {
          reply := Failed(MissingTxn);
        } else {
          reply := ApplyTxn(cmd.txn.value);
          mutated := true;
        }
      case UnknownOp => reply := Failed(UnknownOperation);
    }

    /** One committed command. Whatever orders the map loops inside choose, the outcome is the
        one the model gives: replicas that apply the same log cannot diverge. */
    method Apply(cmd: Command) returns (result: seq<byte>)
      requires ring.Valid()
      modifies this, ring, ring.slots
      ensures ring.Valid()
      ensures (Value(), result) == KvModel.Apply(render, old(Value()), cmd)
    {
      index := index + 1;
      if cmd.timestamp > clock {
        clock := cmd.timestamp;
      }
      ghost var t := Value();
      assert t == Clocked(old(Value()), cmd);
      if cmd.client != [] && cmd.client in dedup && dedup[cmd.client].seqNum >= cmd.seqNum {
        return dedup[cmd.client].result;
      }
      var reply, mutated := Dispatch(cmd);
      result := render(reply);
      if mutated && cmd.client != [] {
        Record(cmd, result);
      }
    }

    method Record(cmd: Command, result: seq<byte>)
      requires cmd.client in dedup ==> dedup[cmd.client].seqNum < cmd.seqNum
      modifies this`dedup
      ensures dedup == Evicted(old(dedup)[cmd.client := DedupEntry(cmd.seqNum, result, index)])
    {
      if cmd.client !in dedup || cmd.seqNum >= dedup[cmd.client].seqNum {
        dedup := dedup[cmd.client := DedupEntry(cmd.seqNum, result, index)];
        EvictIfNeeded();
      }
    }
  }

  lemma OlderTrans(a: DedupEntry, x: Text, b: DedupEntry, y: Text, c: DedupEntry, z: Text)
    requires Older(a, x, b, y) && Older(b, y, c, z)
    ensures Older(a, x, c, z)
  {
    if a.order == b.order == c.order {
      LessTrans(x, y, z);
    }
  }

  lemma TooMany(keys: seq<Text>, k: Text, all: set<Text>, todo: set<Text>)
    requires |keys| >= MAX_RANGE_RESULTS && Visits(keys, all - todo) && k in all && k in todo
    ensures |all| > MAX_RANGE_RESULTS
  {
    VisitCount(keys, all - todo);
    SubsetSize((all - todo) + {k}, all);
  }

  lemma NotBefore(keys: seq<Text>, i: nat)
    requires Ascending(keys) && i < |keys|
    ensures keys[i] !in keys[..i]
  {
    LessIrreflexive(keys[i]);
  }
}
