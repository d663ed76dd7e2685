/** What reads see of writes (pkg/fsm/kv.go:191-446, 524-665): a value until it expires, nothing after a
    delete, listings of exactly what is there, conditions on what is stored, and of a transaction the
    branch they choose. */
module KvReads {
  import opened LogTypes
  import opened Texts
  import opened KvModel
  import Decimals

  // ---------------------------------------------------------------------------
  // What is there

  /** The key is stored and its time has not come: an expiry of 0 is none. */
  ghost predicate There(data: Data, clock: int, key: Text) {
    key in data && (data[key].expiresAt == 0 || clock < data[key].expiresAt)
  }

  /** A read of one key finds its value exactly while it is there. */
  lemma GetMeans(s: View, cmd: Command)
    requires cmd.op == Get || cmd.op == GetV2
    ensures var e := Execute(s, cmd);
            && e == Effect(s.data, s.revision, [], e.reply, false)
            && e.reply == (if !There(s.data, s.clock, cmd.key) then Failed(NotFound)
                           else if cmd.op == Get then Reply.Text(s.data[cmd.key].value, None) else Pair(s.data[cmd.key], None))
  {
  }

  /** The keys under a prefix that are there, in ascending order. */
  ghost predicate Catalogue(s: View, prefix: Text, keys: seq<Text>) {
    && (forall i, j :: 0 <= i < j < |keys| ==> Texts.Less(keys[i], keys[j]))
    && (forall k :: k in keys <==> prefix <= k && There(s.data, s.clock, k))
  }

  lemma LiveKeysListed(s: View, prefix: Text)
    ensures Catalogue(s, prefix, Sorted(LiveKeys(s, prefix)))
  {
    var keys := Sorted(LiveKeys(s, prefix));
    assert Lists(keys, LiveKeys(s, prefix));
  }

  lemma CatalogueSize(s: View, prefix: Text, keys: seq<Text>)
    requires Catalogue(s, prefix, keys)
    ensures |keys| == |LiveKeys(s, prefix)|
  {
    assert Ascending(keys);
    forall i, j | 0 <= i < j < |keys| ensures keys[i] != keys[j] {
      LessIrreflexive(keys[i]);
    }
    VisitCount(keys, LiveKeys(s, prefix));
  }

  /** A range read gives the entries of exactly those keys, in that order, unless there are too many. */
  lemma RangeMeans(s: View, cmd: Command) returns (keys: seq<Text>)
    requires cmd.op == Range
    ensures Catalogue(s, cmd.key, keys)
    ensures var e := Execute(s, cmd);
            && e == Effect(s.data, s.revision, [], e.reply, false)
            && if |keys| > MAX_RANGE_RESULTS then e.reply == Failed(RangeTooLarge)
               else e.reply.Pairs? && |e.reply.kvs| == |keys| && forall i :: 0 <= i < |keys| ==> keys[i] in s.data && e.reply.kvs[i] == s.data[keys[i]]
  {
    keys := Sorted(LiveKeys(s, cmd.key));
    LiveKeysListed(s, cmd.key);
    CatalogueSize(s, cmd.key, keys);
    assert forall i :: 0 <= i < |keys| ==> keys[i] in keys;
  }

  /** A listing gives the values of all keys that are there, in key order. */
  lemma ListMeans(s: View, cmd: Command) returns (keys: seq<Text>)
    requires cmd.op == List
    ensures Catalogue(s, [], keys)
    ensures var e := Execute(s, cmd);
            && e == Effect(s.data, s.revision, [], e.reply, false)
            && e.reply.Values? && |e.reply.values| == |keys|
            && forall i :: 0 <= i < |keys| ==> keys[i] in s.data && e.reply.values[i] == s.data[keys[i]].value
  {
    keys := Sorted(LiveKeys(s, []));
    LiveKeysListed(s, []);
    assert forall i :: 0 <= i < |keys| ==> keys[i] in keys;
  }

  // ---------------------------------------------------------------------------
  // What commands leave alone

  /** The command cannot write the key: it reads, sweeps, or writes elsewhere. */
  ghost predicate Avoids(cmd: Command, key: Text) {
    match cmd.op
    case SetOp => cmd.key != key
    case PutOp => cmd.key != key
    case Delete => cmd.key != key
    case Incr => cmd.key != key
    case Txn => cmd.txn.Some? ==> forall op :: op in cmd.txn.value.success || op in cmd.txn.value.failure ==> op.key != key
    case _ => true
  }

  /** The key is as it was, or its time had come and it was swept. */
  ghost predicate SameOrSwept(data: Data, data': Data, key: Text, clock: int) {
    if key in data then
      if key in data' then data'[key] == data[key] else 0 < data[key].expiresAt <= clock
    else key !in data'
  }

  lemma {:induction false} OpsAvoid(data: Data, ops: seq<TxnOp>, rev: int, key: Text)
    requires forall op :: op in ops ==> op.key != key
    ensures Lookup(OpsData(data, ops, rev), key) == Lookup(data, key)
    decreases |ops|
  {
    if ops != [] {
      OpsAvoid(data, ops[..|ops| - 1], rev, key);
      assert ops[|ops| - 1] in ops;
    }
  }

  lemma TxnAvoids(s: View, cmd: Command, key: Text)
    requires cmd.op == Txn && Avoids(cmd, key)
    ensures SameOrSwept(s.data, Execute(s, cmd).data, key, s.clock)
  {
    if cmd.txn.Some? {
      OpsAvoid(s.data, Branch(s, cmd.txn.value), s.revision + 1, key);
    }
  }

  lemma ExecuteAvoids(s: View, cmd: Command, key: Text)
    requires Avoids(cmd, key)
    ensures SameOrSwept(s.data, Execute(s, cmd).data, key, s.clock)
  {
    if cmd.op == Txn {
      TxnAvoids(s, cmd, key);
    }
  }

  ghost predicate AllAvoid(log: seq<Command>, key: Text) {
    forall i :: 0 <= i < |log| ==> Avoids(log[i], key)
  }

  lemma StepAvoids(render: Render, s: Store, cmd: Command, key: Text)
    requires Avoids(cmd, key)
    ensures SameOrSwept(s.data, Apply(render, s, cmd).0.data, key, Apply(render, s, cmd).0.clock)
    ensures s.clock <= Apply(render, s, cmd).0.clock
  {
    ExecuteAvoids(ViewOf(Clocked(s, cmd)), cmd, key);
  }

  /** Whatever else happens in between, a key nobody writes stays what it was until its time has come. */
  lemma {:induction false} RunAvoids(render: Render, s: Store, log: seq<Command>, key: Text)
    requires AllAvoid(log, key)
    ensures SameOrSwept(s.data, ApplyAll(render, s, log).data, key, ApplyAll(render, s, log).clock)
    ensures s.clock <= ApplyAll(render, s, log).clock
    decreases |log|
  {
    if log != [] {
      RunAvoids(render, s, log[..|log| - 1], key);
      StepAvoids(render, ApplyAll(render, s, log[..|log| - 1]), log[|log| - 1], key);
    }
  }

  lemma ThereLater(data: Data, data': Data, key: Text, clock: int, clock': int)
    requires SameOrSwept(data, data', key, clock) && clock <= clock'
    ensures There(data', clock', key) <==> There(data, clock', key)
    ensures There(data', clock', key) ==> data'[key] == data[key]
  {
  }

  // ---------------------------------------------------------------------------
  // Reading what was written

  /** The store after a write of one key by a put or a set, given the clock it was executed at. */
  ghost predicate Wrote(s: Store, cmd: Command, s': Store) {
    && cmd.key in s'.data && s'.data[cmd.key].value == cmd.value && s'.data[cmd.key].key == cmd.key
    && s'.data[cmd.key].modRevision == s'.revision == s.revision + 1
    && s'.data[cmd.key].expiresAt == (if cmd.op == PutOp && cmd.ttl > 0 then s'.clock + 1000 * cmd.ttl else 0)
    && s'.data.Keys == s.data.Keys + {cmd.key} && forall k :: k in s.data && k != cmd.key ==> s'.data[k] == s.data[k]
  }

  ghost predicate Swallowed(s: Store, cmd: Command) {
    cmd.client != [] && cmd.client in s.dedup && s.dedup[cmd.client].seqNum >= cmd.seqNum
  }

  lemma PutExecutes(v: View, put: Command)
    requires (put.op == PutOp || put.op == SetOp) && v.revision < MAX_REVISION
    ensures var e := Execute(v, put);
            && put.key in e.data && e.data == v.data[put.key := e.data[put.key]] && e.revision == v.revision + 1
            && var kv := e.data[put.key];
               && kv.key == put.key && kv.value == put.value && kv.modRevision == v.revision + 1
               && kv.expiresAt == if put.op == PutOp && put.ttl > 0 then v.clock + 1000 * put.ttl else 0
  {
  }

  lemma Carries(render: Render, s: Store, cmd: Command)
    requires !Swallowed(s, cmd)
    ensures var e, t := Execute(View(s.data, s.revision, ClockFor(s, cmd)), cmd), Apply(render, s, cmd).0;
            t.data == e.data && t.revision == e.revision && t.clock == ClockFor(s, cmd) && Apply(render, s, cmd).1 == render(e.reply)
  {
  }

  lemma PutWrites(render: Render, s: Store, put: Command)
    requires (put.op == PutOp || put.op == SetOp) && s.revision < MAX_REVISION && !Swallowed(s, put)
    ensures Wrote(s, put, Apply(render, s, put).0)
  {
    Carries(render, s, put);
    PutExecutes(View(s.data, s.revision, ClockFor(s, put)), put);
  }

  /** The clock a command runs at. */
  function ClockFor(s: Store, cmd: Command): int {
    if s.clock < cmd.timestamp then cmd.timestamp else s.clock
  }

  lemma ReadReply(render: Render, s: Store, get: Command)
    requires (get.op == Get || get.op == GetV2) && !Swallowed(s, get)
    ensures Apply(render, s, get).1
         == render(if !There(s.data, ClockFor(s, get), get.key) then Failed(NotFound)
                   else if get.op == Get then Reply.Text(s.data[get.key].value, None) else Pair(s.data[get.key], None))
  {
    Carries(render, s, get);
    GetMeans(View(s.data, s.revision, ClockFor(s, get)), get);
  }

  /** Read-after-write: after a put, and any commands that do not write its key, a read of the key gives
      the value put, until the clock reaches the time of the put plus its TTL in milliseconds; from then
      on the key is not found. Only a time of exactly 0, which takes a negative clock, counts as none. */
  lemma ReadAfterPut(render: Render, s: Store, put: Command, log: seq<Command>, get: Command)
    requires (put.op == PutOp || put.op == SetOp) && s.revision < MAX_REVISION && !Swallowed(s, put)
    requires AllAvoid(log, put.key) && (get.op == Get || get.op == GetV2) && get.key == put.key
    requires !Swallowed(ApplyAll(render, Apply(render, s, put).0, log), get)
    ensures var t := Apply(render, s, put).0;
            var u := ApplyAll(render, t, log);
            var kv := t.data[put.key];
            var until := t.clock + 1000 * put.ttl;
            && kv.value == put.value
            && Apply(render, u, get).1
                 == render(if put.op == PutOp && put.ttl > 0 && until != 0 && ClockFor(u, get) >= until then Failed(NotFound)
                           else if get.op == Get then Reply.Text(put.value, None) else Pair(kv, None))
  {
    var t := Apply(render, s, put).0;
    var u := ApplyAll(render, t, log);
    PutWrites(render, s, put);
    RunAvoids(render, t, log, put.key);
    ThereLater(t.data, u.data, put.key, u.clock, ClockFor(u, get));
    ReadReply(render, u, get);
    PutClock(render, s, put);
  }

  lemma PutClock(render: Render, s: Store, put: Command)
    ensures Apply(render, s, put).0.clock == ClockFor(s, put)
  {
  }

  lemma DeleteRemoves(render: Render, s: Store, del: Command)
    requires del.op == Delete && s.revision < MAX_REVISION && !Swallowed(s, del) && There(s.data, ClockFor(s, del), del.key)
    ensures var t := Apply(render, s, del).0;
            && t.data == s.data - {del.key} && t.revision == s.revision + 1 && t.clock == ClockFor(s, del)
            && Apply(render, s, del).1 == render(Reply.Text(OK, if del.returnPrev then Some(s.data[del.key]) else None))
  {
  }

  /** After a delete, and any commands that do not write its key, the key is not found. */
  lemma ReadAfterDelete(render: Render, s: Store, del: Command, log: seq<Command>, get: Command)
    requires del.op == Delete && s.revision < MAX_REVISION && !Swallowed(s, del) && There(s.data, ClockFor(s, del), del.key)
    requires AllAvoid(log, del.key) && (get.op == Get || get.op == GetV2) && get.key == del.key
    requires !Swallowed(ApplyAll(render, Apply(render, s, del).0, log), get)
    ensures Apply(render, ApplyAll(render, Apply(render, s, del).0, log), get).1 == render(Failed(NotFound))
  {
    var t := Apply(render, s, del).0;
    var u := ApplyAll(render, t, log);
    DeleteRemoves(render, s, del);
    RunAvoids(render, t, log, del.key);
    ThereLater(t.data, u.data, del.key, u.clock, ClockFor(u, get));
    ReadReply(render, u, get);
  }

  // ---------------------------------------------------------------------------
  // Replies and events of writes

  /** The entry a put leaves: a key that was stored, expired or not, keeps its creation and counts on. */
  ghost predicate Successor(data: Data, key: Text, value: Text, rev: int, kv: KeyValue) {
    && kv.key == key && kv.value == value && kv.modRevision == rev
    && (key in data ==> kv.createRevision == data[key].createRevision && kv.version == data[key].version + 1)
    && (key !in data ==> kv.createRevision == rev && kv.version == 1)
  }

  /** A put or set is answered with what it stored, and with what it replaced if asked to, and emits one
      event that tells both; with no revision left it is refused and does nothing. */
  lemma PutMeans(s: View, put: Command)
    requires put.op == PutOp || put.op == SetOp
    ensures var e := Execute(s, put);
            var was := if put.key in s.data then Some(s.data[put.key]) else None;
            if s.revision >= MAX_REVISION then e == Effect(s.data, s.revision, [], Failed(RevisionExhausted), false)
            else
              && put.key in e.data && Successor(s.data, put.key, put.value, s.revision + 1, e.data[put.key]) && e.mutated
              && e.events == [Put(put.key, e.data[put.key], was, s.revision + 1)]
              && e.reply == if put.op == SetOp then Reply.Text(put.value, None)
                            else Pair(e.data[put.key], if put.returnPrev then was else None)
  {
  }

  /** A delete removes a key that is there and tells what it was; a key that is not there is not found. */
  lemma DeleteMeans(s: View, del: Command)
    requires del.op == Delete
    ensures var e := Execute(s, del);
            if !There(s.data, s.clock, del.key) then e == Effect(s.data, s.revision, [], Failed(NotFound), false)
            else if s.revision >= MAX_REVISION then e == Effect(s.data, s.revision, [], Failed(RevisionExhausted), false)
            else
              e == Effect(s.data - {del.key}, s.revision + 1, [Deletion(del.key, Some(s.data[del.key]), s.revision + 1)],
                          Reply.Text(OK, if del.returnPrev then Some(s.data[del.key]) else None), true)
  {
  }

  /** A tick deletes every key whose time has come, in key order, telling what each one was, and counts
      them; with none, or no revision left, it does nothing. */
  lemma TickMeans(s: View, tick: Command) returns (keys: seq<Text>)
    requires tick.op == Tick
    ensures forall i, j :: 0 <= i < j < |keys| ==> Texts.Less(keys[i], keys[j])
    ensures forall k :: k in keys <==> k in s.data && 0 < s.data[k].expiresAt <= s.clock
    ensures var e := Execute(s, tick);
            if keys == [] || s.revision >= MAX_REVISION then e == Effect(s.data, s.revision, [], Count(0), false)
            else
              && e.data == (map k | k in s.data && k !in keys :: s.data[k])
              && e.revision == s.revision + 1 && e.reply == Count(|keys|) && !e.mutated && |e.events| == |keys|
              && forall i :: 0 <= i < |keys| ==>
                   keys[i] in s.data && e.events[i] == Deletion(keys[i], Some(s.data[keys[i]]), s.revision + 1)
  {
    keys := Sorted(Expired(s));
    assert Lists(keys, Expired(s));
    assert forall i :: 0 <= i < |keys| ==> keys[i] in keys;
    assert keys == [] <==> Expired(s) == {} by {
      if keys != [] {
        assert keys[0] in Expired(s);
      }
    }
    ExpiredSize(s, keys);
  }

  lemma ExpiredSize(s: View, keys: seq<Text>)
    requires Lists(keys, Expired(s))
    ensures |keys| == |Expired(s)|
  {
    forall i, j | 0 <= i < j < |keys| ensures keys[i] != keys[j] {
      LessIrreflexive(keys[i]);
    }
    VisitCount(keys, Expired(s));
  }

  // ---------------------------------------------------------------------------
  // Counters

  /** A counter command adds the delta to what is there, 0 if nothing is, exactly when revisions are left,
      both are base-10 int64 texts and so is the sum; otherwise it changes nothing and says which
      of these fails first. */
  lemma IncrMeans(s: View, cmd: Command)
    requires cmd.op == Incr
    ensures var e := Execute(s, cmd);
            var delta := Decimals.Parse(cmd.value);
            var was := if There(s.data, s.clock, cmd.key) then Decimals.Parse(s.data[cmd.key].value) else Some(0);
            if s.revision >= MAX_REVISION then e == Effect(s.data, s.revision, [], Failed(RevisionExhausted), false)
            else if delta.None? then e == Effect(s.data, s.revision, [], Failed(BadDelta), false)
            else if was.None? then e == Effect(s.data, s.revision, [], Failed(NotANumber), false)
            else if !Int64(was.value + delta.value) then e == Effect(s.data, s.revision, [], Failed(Overflow), false)
            else
              && e.revision == s.revision + 1 && e.mutated && cmd.key in e.data && e.data == s.data[cmd.key := e.data[cmd.key]]
              && Decimals.Parse(e.data[cmd.key].value) == Some(was.value + delta.value) && e.data[cmd.key].expiresAt == 0
              && e.reply == Pair(e.data[cmd.key], None)
  {
  }

  // ---------------------------------------------------------------------------
  // Conditions

  /** What a numeric condition looks at: absent and expired keys count as 0. */
  ghost function Measure(s: View, c: Compare): int {
    if !There(s.data, s.clock, c.key) then 0
    else
      var kv := s.data[c.key];
      match c.target
      case Version => kv.version
      case CreateRevision => kv.createRevision
      case ModRevision => kv.modRevision
      case _ => 0
  }

  lemma ConditionMeans(s: View, c: Compare)
    ensures c.target in {Version, CreateRevision, ModRevision} ==>
              && (c.result == Equal ==> (Holds(s, c) <==> Measure(s, c) == c.rev))
              && (c.result == NotEqual ==> (Holds(s, c) <==> Measure(s, c) != c.rev))
              && (c.result == Greater ==> (Holds(s, c) <==> Measure(s, c) > c.rev))
              && (c.result == Relation.Less ==> (Holds(s, c) <==> Measure(s, c) < c.rev))
    ensures c.target == Value ==>
              && (c.result == Equal ==> (Holds(s, c) <==> There(s.data, s.clock, c.key) && s.data[c.key].value == c.value))
              && (c.result == NotEqual ==> (Holds(s, c) <==> !There(s.data, s.clock, c.key) || s.data[c.key].value != c.value))
              && (c.result != Equal && c.result != NotEqual ==> !Holds(s, c))
    ensures c.target == OtherTarget || c.result == OtherRelation ==> !Holds(s, c)
  {
  }

  // ---------------------------------------------------------------------------
  // Transactions

  /** The last operation of the list that puts or deletes the key, if there is one. */
  ghost predicate LastOn(ops: seq<TxnOp>, key: Text, j: nat) {
    && j < |ops| && ops[j].key == key && (ops[j].kind == 0 || ops[j].kind == 1)
    && forall i :: j < i < |ops| ==> ops[i].key != key || (ops[i].kind != 0 && ops[i].kind != 1)
  }

  ghost predicate NoneOn(ops: seq<TxnOp>, key: Text) {
    forall i :: 0 <= i < |ops| ==> ops[i].key != key || (ops[i].kind != 0 && ops[i].kind != 1)
  }

  lemma {:induction false} NoneChanges(data: Data, ops: seq<TxnOp>, rev: int, key: Text)
    requires NoneOn(ops, key)
    ensures Lookup(OpsData(data, ops, rev), key) == Lookup(data, key)
    decreases |ops|
  {
    if ops != [] {
      NoneChanges(data, ops[..|ops| - 1], rev, key);
    }
  }

  lemma OpDoes(data: Data, op: TxnOp, rev: int)
    requires op.kind == 0 || op.kind == 1
    ensures op.kind == 1 ==> op.key !in OpData(data, op, rev)
    ensures op.kind == 0 ==>
              && op.key in OpData(data, op, rev)
              && var kv := OpData(data, op, rev)[op.key];
                 kv.key == op.key && kv.value == op.value && kv.modRevision == rev && kv.expiresAt == 0
  {
  }

  /** The last operation on a key decides what becomes of it. */
  lemma {:induction false} LastDecides(data: Data, ops: seq<TxnOp>, rev: int, key: Text, j: nat)
    requires LastOn(ops, key, j)
    ensures var data' := OpsData(data, ops, rev);
            && (ops[j].kind == 1 ==> key !in data')
            && (ops[j].kind == 0 ==>
                  key in data' && data'[key].key == key && data'[key].value == ops[j].value && data'[key].modRevision == rev
                  && data'[key].expiresAt == 0)
    decreases |ops|
  {
    var n := |ops| - 1;
    if j == n {
      OpDoes(OpsData(data, ops[..n], rev), ops[n], rev);
    } else {
      LastDecides(data, ops[..n], rev, key, j);
      assert ops[n].key != key || (ops[n].kind != 0 && ops[n].kind != 1);
    }
  }

  /** The operations take effect as a whole: one revision up, every key as the last operation on it left
      it and every other key untouched. */
  ghost predicate TakesEffect(data: Data, revision: int, ops: seq<TxnOp>, e: Effect) {
    && e.revision == revision + 1 && e.mutated
    && (forall key :: NoneOn(ops, key) ==> Lookup(e.data, key) == Lookup(data, key))
    && (forall key, j: nat :: LastOn(ops, key, j) && ops[j].kind == 1 ==> key !in e.data)
    && (forall key, j: nat :: LastOn(ops, key, j) && ops[j].kind == 0 ==>
          key in e.data && e.data[key].value == ops[j].value && e.data[key].modRevision == revision + 1 && e.data[key].expiresAt == 0)
  }

  lemma ExecutedTakesEffect(s: View, ops: seq<TxnOp>, succeeded: bool)
    ensures TakesEffect(s.data, s.revision, ops, Executed(s, ops, succeeded))
  {
    forall key | NoneOn(ops, key) ensures Lookup(OpsData(s.data, ops, s.revision + 1), key) == Lookup(s.data, key) {
      NoneChanges(s.data, ops, s.revision + 1, key);
    }
    var e := Executed(s, ops, succeeded);
    forall key, j: nat | LastOn(ops, key, j)
      ensures ops[j].kind == 1 ==> key !in e.data
      ensures ops[j].kind == 0 ==>
                key in e.data && e.data[key].value == ops[j].value && e.data[key].modRevision == s.revision + 1 && e.data[key].expiresAt == 0
    {
      LastDecides(s.data, ops, s.revision + 1, key, j);
    }
  }

  ghost predicate ResultIs(data: Data, op: TxnOp, rev: int, r: TxnResult) {
    && !r.missing
    && (op.kind == 0 ==> r.kv.Some? && Successor(data, op.key, op.value, rev, r.kv.value) && r.kv.value.expiresAt == 0)
    && (op.kind == 1 ==> r.kv == if op.key in data then Some(data[op.key]) else None)
  }

  ghost predicate ResultsAre(data: Data, ops: seq<TxnOp>, rev: int, rs: seq<TxnResult>) {
    |rs| == |ops| && forall i :: 0 <= i < |ops| ==> ResultIs(OpsData(data, ops[..i], rev), ops[i], rev, rs[i])
  }

  lemma OneResult(data: Data, op: TxnOp, rev: int)
    requires op.kind == 0 || op.kind == 1
    ensures |OpResults(data, op, rev)| == 1 && ResultIs(data, op, rev, OpResults(data, op, rev)[0])
  {
  }

  lemma ResultsSnoc(data: Data, ops: seq<TxnOp>, op: TxnOp, rev: int, rs: seq<TxnResult>, r: TxnResult)
    requires ResultsAre(data, ops, rev, rs) && ResultIs(OpsData(data, ops, rev), op, rev, r)
    ensures ResultsAre(data, ops + [op], rev, rs + [r])
  {
    var all := ops + [op];
    forall i | 0 <= i < |all| ensures ResultIs(OpsData(data, all[..i], rev), all[i], rev, (rs + [r])[i]) {
      if i < |ops| {
        assert all[..i] == ops[..i] && all[i] == ops[i];
      } else {
        assert all[..i] == ops;
      }
    }
  }

  /** The result of each operation, when all are puts or deletes: the entry as put, or the entry deleted,
      as the operations before it left it. */
  lemma {:induction false} ResultsMean(data: Data, ops: seq<TxnOp>, rev: int)
    requires forall i :: 0 <= i < |ops| ==> ops[i].kind == 0 || ops[i].kind == 1
    ensures ResultsAre(data, ops, rev, OpsResults(data, ops, rev))
    decreases |ops|
  {
    if ops != [] {
      var front, op := ops[..|ops| - 1], ops[|ops| - 1];
      ResultsMean(data, front, rev);
      OneResult(OpsData(data, front, rev), op, rev);
      var r := OpResults(OpsData(data, front, rev), op, rev);
      assert r == [r[0]];
      ResultsSnoc(data, front, op, rev, OpsResults(data, front, rev), r[0]);
      assert front + [op] == ops;
    }
  }

  /** The operations were turned away: nothing changes. */
  ghost predicate NoEffect(s: View, e: Effect) {
    e.data == s.data && e.revision == s.revision && e.events == []
  }

  ghost predicate DeletesMissing(data: Data, ops: seq<TxnOp>) {
    exists i :: 0 <= i < |ops| && ops[i].kind == 1 && ops[i].key !in data
  }

  lemma MissingIsDoomed(data: Data, ops: seq<TxnOp>)
    ensures DeletesMissing(data, ops) <==> AnyDoomed(data, ops)
  {
    if DeletesMissing(data, ops) {
      var i :| 0 <= i < |ops| && ops[i].kind == 1 && ops[i].key !in data;
      assert ops[i] in ops && Doomed(data, ops[i]);
    }
  }

  ghost predicate AllTrue(s: View, cs: seq<Compare>) {
    forall i :: 0 <= i < |cs| ==> Holds(s, cs[i])
  }

  /** A transaction runs its success operations exactly when every condition holds, its failure operations
      otherwise. They take effect unless there are none, the revisions are used up, or one deletes a
      key that is missing at the start; then nothing changes. */
  lemma TxnMeans(s: View, cmd: Command)
    requires cmd.op == Txn && cmd.txn.Some?
    ensures var req, e := cmd.txn.value, Execute(s, cmd);
            var ops := if AllTrue(s, req.compare) then req.success else req.failure;
            && e.reply.TxnReply?
            && if ops == [] || s.revision >= MAX_REVISION || DeletesMissing(s.data, ops) then
                 NoEffect(s, e) && (e.reply.succeeded <==> AllTrue(s, req.compare) && ops == [])
               else
                 TakesEffect(s.data, s.revision, ops, e) && (e.reply.succeeded <==> AllTrue(s, req.compare))
  {
    var req := cmd.txn.value;
    var ops := if AllTrue(s, req.compare) then req.success else req.failure;
    assert AllTrue(s, req.compare) <==> AllHold(s, req.compare);
    MissingIsDoomed(s.data, ops);
    ExecutedTakesEffect(s, ops, AllTrue(s, req.compare));
  }
}
