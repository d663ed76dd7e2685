/** The event stream as a changelog: it carries every change of the data, one revision per
    command, and the ring can rebuild the data for as long as it reaches back far enough. */
module KvChangelog {
  import opened LogTypes
  import opened Texts
  import opened KvModel

  function Redo(data: Data, e: Event): Data {
    match e
    case Put(key, kv, _, _) => data[key := kv]
    case Deletion(key, _, _) => data - {key}
  }

  function Replay(data: Data, es: seq<Event>): Data {
    if es == [] then data else Redo(Replay(data, es[..|es| - 1]), es[|es| - 1])
  }

  lemma {:induction false} ReplayConcat(data: Data, a: seq<Event>, b: seq<Event>)
    ensures Replay(data, a + b) == Replay(Replay(data, a), b)
    decreases |b|
  {
    if b == [] {
      assert a + b == a;
    } else {
      var front := b[..|b| - 1];
      assert (a + b)[..|a + b| - 1] == a + front;
      ReplayConcat(data, a, front);
    }
  }

  predicate AllAt(es: seq<Event>, rev: int) {
    forall i :: 0 <= i < |es| ==> es[i].revision == rev
  }

  // ---------------------------------------------------------------------------
  // One command

  /** The events tell exactly what happened to the data, at one revision. */
  ghost predicate Told(data: Data, revision: int, e: Effect) {
    && Replay(data, e.events) == e.data
    && AllAt(e.events, e.revision)
    && (e.revision == revision || e.revision == revision + 1)
    && (e.revision == revision ==> e.events == [])
  }

  lemma ReplayOne(data: Data, e: Event)
    ensures Replay(data, [e]) == Redo(data, e)
  {
    assert [e][..0] == [];
    assert Replay(data, []) == data;
  }

  lemma {:induction false} ReplayDeletions(data: Data, now: Data, keys: seq<Text>, rev: int)
    ensures Replay(now, Deletions(data, keys, rev)) == now - (set k | k in keys)
    decreases |keys|
  {
    if keys == [] {
      assert (set k | k in keys) == {};
      assert Replay(now, []) == now;
    } else {
      var first := Deletion(keys[0], Lookup(data, keys[0]), rev);
      ReplayConcat(now, [first], Deletions(data, keys[1..], rev));
      ReplayOne(now, first);
      ReplayDeletions(data, now - {keys[0]}, keys[1..], rev);
      assert (set k | k in keys) == {keys[0]} + set k | k in keys[1..];
    }
  }

  lemma SweepTold(data: Data, keys: seq<Text>, gone: set<Text>, rev: int)
    requires Lists(keys, gone)
    ensures Replay(data, Deletions(data, keys, rev)) == data - gone
  {
    ReplayDeletions(data, data, keys, rev);
    assert (set k | k in keys) == gone;
  }

  lemma TickTold(s: View)
    ensures Told(s.data, s.revision, DoTick(s))
  {
    var gone := Expired(s);
    if gone == {} || Exhausted(s) {
      IdleTold(s, DoTick(s));
    } else {
      SweepTold(s.data, Sorted(gone), gone, s.revision + 1);
    }
  }

  lemma {:induction false} OpsTold(data: Data, ops: seq<TxnOp>, rev: int)
    ensures Replay(data, OpsEvents(data, ops, rev)) == OpsData(data, ops, rev)
    ensures AllAt(OpsEvents(data, ops, rev), rev)
    decreases |ops|
  {
    if ops != [] {
      var front, op := ops[..|ops| - 1], ops[|ops| - 1];
      var mid := OpsData(data, front, rev);
      OpsTold(data, front, rev);
      ReplayConcat(data, OpsEvents(data, front, rev), OpEvents(mid, op, rev));
      if op.kind == 0 || op.kind == 1 {
        ReplayOne(mid, OpEvents(mid, op, rev)[0]);
      }
    }
  }

  lemma ExecutedTold(s: View, ops: seq<TxnOp>, succeeded: bool)
    ensures Told(s.data, s.revision, Executed(s, ops, succeeded))
  {
    OpsTold(s.data, ops, s.revision + 1);
  }

  lemma IdleTold(s: View, e: Effect)
    requires e.data == s.data && e.revision == s.revision && e.events == []
    ensures Told(s.data, s.revision, e)
  {
    assert Replay(s.data, []) == s.data;
  }

  lemma TxnTold(s: View, req: TxnRequest)
    ensures Told(s.data, s.revision, DoTxn(s, req))
  {
    var ops := Branch(s, req);
    if ops == [] || Exhausted(s) || AnyDoomed(s.data, ops) {
      IdleTold(s, DoTxn(s, req));
    } else {
      ExecutedTold(s, ops, AllHold(s, req.compare));
    }
  }

  lemma PutTold(s: View, kv: KeyValue, prev: Option<KeyValue>, reply: Reply)
    ensures Told(s.data, s.revision, PutEffect(s, kv, prev, reply))
  {
    ReplayOne(s.data, Put(kv.key, kv, prev, s.revision + 1));
  }

  lemma DeleteTold(s: View, cmd: Command)
    ensures Told(s.data, s.revision, DoDelete(s, cmd))
  {
    ReplayOne(s.data, Deletion(cmd.key, LiveAt(s, cmd.key), s.revision + 1));
  }

  lemma SumTold(s: View, key: Text, prev: Option<KeyValue>, added: Addition)
    ensures Told(s.data, s.revision, SumEffect(s, key, prev, added))
  {
    var e := SumEffect(s, key, prev, added);
    if e.mutated {
      PutTold(s, e.reply.kv, prev, e.reply);
    } else {
      IdleTold(s, e);
    }
  }

  lemma IncrTold(s: View, cmd: Command)
    ensures Told(s.data, s.revision, DoIncr(s, cmd))
  {
    var prev := LiveAt(s, cmd.key);
    SumTold(s, cmd.key, prev, Added(prev, cmd.value));
  }

  /** Every command that changes the data, transactions and sweeps included, does so in one
      revision bump and tells it all in its events. */
  lemma ExecuteTold(s: View, cmd: Command)
    ensures Told(s.data, s.revision, Execute(s, cmd))
  {
    match cmd.op
    case Tick => TickTold(s);
    case SetOp =>
      var prev := Lookup(s.data, cmd.key);
      PutTold(s, Written(cmd.key, cmd.value, prev, s.revision + 1, 0), prev, Reply.Text(cmd.value, None));
    case PutOp =>
      var e := DoPut(s, cmd);
      if e.mutated {
        PutTold(s, e.reply.kv, Lookup(s.data, cmd.key), e.reply);
      }
    case Delete => DeleteTold(s, cmd);
    case Incr => IncrTold(s, cmd);
    case Txn =>
      if cmd.txn.Some? {
        TxnTold(s, cmd.txn.value);
      }
    case _ =>
  }

  /** A transaction that reports failure after its conditions chose a branch has changed nothing. */
  lemma AbortChangesNothing(s: View, req: TxnRequest)
    requires AnyDoomed(s.data, Branch(s, req))
    ensures var e := DoTxn(s, req);
            && e.data == s.data && e.revision == s.revision && e.events == []
            && e.reply.TxnReply? && !e.reply.succeeded
  {
  }

  // ---------------------------------------------------------------------------
  // Whole logs

  ghost function Emitted(s: Store, cmd: Command): seq<Event> {
    var t := Clocked(s, cmd);
    if Stale(t, cmd) then [] else Execute(ViewOf(t), cmd).events
  }

  /** All events a log emits, oldest first. */
  ghost function Stream(render: Render, s: Store, log: seq<Command>): seq<Event> {
    if log == [] then [] else
      var front := log[..|log| - 1];
      Stream(render, s, front) + Emitted(ApplyAll(render, s, front), log[|log| - 1])
  }

  /** The events lead from one state to the other: replaying them gives the data, their revisions
      lie strictly after the first state's and up to the second's, the ring holds the newest. */
  ghost predicate Leads(s: Store, es: seq<Event>, s': Store) {
    && s'.data == Replay(s.data, es)
    && Between(es, s.revision, s'.revision)
    && s'.recent == Newest(s.recent + es)
  }

  ghost predicate Between(es: seq<Event>, low: int, high: int) {
    && low <= high && (low == high ==> es == [])
    && (forall i :: 0 <= i < |es| ==> low < es[i].revision <= high)
    && (forall i, j :: 0 <= i <= j < |es| ==> es[i].revision <= es[j].revision)
  }

  lemma StepLeads(render: Render, s: Store, cmd: Command)
    requires |s.recent| <= HISTORY_SIZE
    ensures Leads(s, Emitted(s, cmd), Apply(render, s, cmd).0)
    ensures Apply(render, s, cmd).0.revision <= s.revision + 1
  {
    ExecuteTold(ViewOf(Clocked(s, cmd)), cmd);
    assert Replay(s.data, []) == s.data;
    assert s.recent + [] == s.recent;
  }

  lemma BetweenOn(a: seq<Event>, b: seq<Event>, low: int, mid: int, high: int)
    requires Between(a, low, mid) && Between(b, mid, high)
    ensures Between(a + b, low, high)
  {
  }

  lemma NewestOn(recent: seq<Event>, a: seq<Event>, b: seq<Event>)
    ensures Newest(recent + (a + b)) == Newest(Newest(recent + a) + b)
  {
    NewestTwice(recent + a, b);
    assert recent + a + b == recent + (a + b);
  }

  lemma LeadsOn(s: Store, a: seq<Event>, mid: Store, b: seq<Event>, s': Store)
    requires Leads(s, a, mid) && Leads(mid, b, s')
    ensures Leads(s, a + b, s')
  {
    var ab := a + b;
    assert s'.data == Replay(s.data, ab) by { ReplayConcat(s.data, a, b); }
    assert Between(ab, s.revision, s'.revision) by { BetweenOn(a, b, s.revision, mid.revision, s'.revision); }
    assert s'.recent == Newest(s.recent + ab) by { NewestOn(s.recent, a, b); }
  }

  lemma NewestTwice(a: seq<Event>, b: seq<Event>)
    ensures Newest(Newest(a) + b) == Newest(a + b)
  {
    if |a| > HISTORY_SIZE {
      assert a + b == a[..|a| - HISTORY_SIZE] + (Newest(a) + b);
    }
  }

  /** The stream is the whole difference between two states of a run. */
  lemma {:induction false} StreamLeads(render: Render, s: Store, log: seq<Command>)
    requires |s.recent| <= HISTORY_SIZE
    ensures Leads(s, Stream(render, s, log), ApplyAll(render, s, log))
    decreases |log|
  {
    if log == [] {
      assert s.recent + [] == s.recent;
    } else {
      var front, cmd := log[..|log| - 1], log[|log| - 1];
      var mid := ApplyAll(render, s, front);
      StreamLeads(render, s, front);
      StepLeads(render, mid, cmd);
      LeadsOn(s, Stream(render, s, front), mid, Emitted(mid, cmd), Apply(render, mid, cmd).0);
    }
  }

  /** Data is a function of the revision: a run that does not raise it changes nothing. */
  lemma SameRevisionSameData(render: Render, s: Store, log: seq<Command>)
    requires |s.recent| <= HISTORY_SIZE && ApplyAll(render, s, log).revision == s.revision
    ensures ApplyAll(render, s, log).data == s.data && Stream(render, s, log) == []
  {
    StreamLeads(render, s, log);
  }

  // ---------------------------------------------------------------------------
  // History

  /** The buffered events after a revision, oldest first. */
  function After(es: seq<Event>, revision: int): seq<Event> {
    if es == [] then []
    else After(es[..|es| - 1], revision) + if es[|es| - 1].revision > revision then [es[|es| - 1]] else []
  }

  function History(s: Store, since: int): seq<Event> {
    After(s.recent, since)
  }

  lemma {:induction false} AfterOld(a: seq<Event>, revision: int)
    requires forall i :: 0 <= i < |a| ==> a[i].revision <= revision
    ensures After(a, revision) == []
    decreases |a|
  {
    if a != [] {
      AfterOld(a[..|a| - 1], revision);
    }
  }

  lemma {:induction false} AfterSplit(a: seq<Event>, b: seq<Event>, revision: int)
    requires forall i :: 0 <= i < |a| ==> a[i].revision <= revision
    requires forall i :: 0 <= i < |b| ==> b[i].revision > revision
    ensures After(a + b, revision) == b
    decreases |b|
  {
    if b == [] {
      assert a + b == a;
      AfterOld(a, revision);
    } else {
      var front, last := b[..|b| - 1], b[|b| - 1];
      AfterSplit(a, front, revision);
      assert (a + b)[..|a + b| - 1] == a + front;
      assert b == front + [last];
    }
  }

  ghost predicate RingSound(s: Store) {
    |s.recent| <= HISTORY_SIZE && forall i :: 0 <= i < |s.recent| ==> s.recent[i].revision <= s.revision
  }

  lemma RingStaysSound(render: Render, s: Store, log: seq<Command>)
    requires RingSound(s)
    ensures RingSound(ApplyAll(render, s, log))
  {
    StreamLeads(render, s, log);
    var es := Stream(render, s, log);
    assert forall i :: 0 <= i < |s.recent + es| ==> (s.recent + es)[i].revision <= ApplyAll(render, s, log).revision;
  }

  lemma NewestAfter(earlier: seq<Event>, es: seq<Event>, low: int, high: int)
    requires |earlier| <= HISTORY_SIZE && Between(es, low, high)
    requires forall i :: 0 <= i < |earlier| ==> earlier[i].revision <= low
    ensures After(Newest(earlier + es), low) == Newest(es)
  {
    var all := earlier + es;
    if |es| > HISTORY_SIZE {
      assert Newest(all) == [] + Newest(es);
      AfterSplit([], Newest(es), low);
    } else {
      var kept := if |all| > HISTORY_SIZE then earlier[|all| - HISTORY_SIZE..] else earlier;
      assert Newest(all) == kept + es;
      AfterSplit(kept, es, low);
    }
  }

  /** What the history returns since a state's revision is the newest part of what was emitted
      since, and it is all of it exactly when that fits the ring. */
  lemma HistorySince(render: Render, s: Store, log: seq<Command>)
    requires RingSound(s)
    ensures var s', es := ApplyAll(render, s, log), Stream(render, s, log);
            && History(s', s.revision) == Newest(es)
            && (History(s', s.revision) == es <==> |es| <= HISTORY_SIZE)
  {
    StreamLeads(render, s, log);
    NewestAfter(s.recent, Stream(render, s, log), s.revision, ApplyAll(render, s, log).revision);
  }

  /** From the data at some revision and the history since then, the current data can be rebuilt
      as long as the ring still holds every event in between. */
  lemma HistoryRebuilds(render: Render, before: seq<Command>, since: seq<Command>)
    ensures var s := ApplyAll(render, EMPTY_STORE, before);
            var s' := ApplyAll(render, s, since);
            |Stream(render, s, since)| <= HISTORY_SIZE ==> Replay(s.data, History(s', s.revision)) == s'.data
  {
    var s := ApplyAll(render, EMPTY_STORE, before);
    RingStaysSound(render, EMPTY_STORE, before);
    HistorySince(render, s, since);
    StreamLeads(render, s, since);
  }
}
