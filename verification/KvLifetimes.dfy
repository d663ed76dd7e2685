/** What the stored fields of a key mean over its lifetime, and when expiry shows. */
module KvLifetimes {
  import opened LogTypes
  import opened Texts
  import opened KvModel
  import opened KvChangelog
  import Decimals

  // ---------------------------------------------------------------------------
  // Versions and revisions

  /** The puts to a key since it was last created; none while it is deleted. A put that found no
      previous entry starts the count afresh. */
  function Lifetime(es: seq<Event>, key: Text): seq<Event> {
    if es == [] then [] else
      var front, e := Lifetime(es[..|es| - 1], key), es[|es| - 1];
      if e.key != key then front
      else if e.Deletion? then []
      else if e.prev.None? then [e]
      else front + [e]
  }

  /** An entry tells its lifetime: how many puts there were, and when the first and the last were. */
  ghost predicate Tells(kv: KeyValue, puts: seq<Event>) {
    && puts != []
    && kv.version == |puts|
    && kv.createRevision == puts[0].revision
    && kv.modRevision == puts[|puts| - 1].revision
    && puts[|puts| - 1].Put? && puts[|puts| - 1].kv == kv
  }

  ghost predicate Accounted(data: Data, es: seq<Event>) {
    forall key :: if key in data then Tells(data[key], Lifetime(es, key)) else Lifetime(es, key) == []
  }

  /** A put is stamped with its own revision, and continues the entry it replaced if it names one. */
  ghost predicate Stamped(data: Data, e: Event) {
    e.Put? ==>
      && e.kv.key == e.key && e.kv.modRevision == e.revision
      && match e.prev
         case None => e.kv.version == 1 && e.kv.createRevision == e.revision
         case Some(p) =>
           && e.key in data && data[e.key] == p
           && e.kv.version == p.version + 1 && e.kv.createRevision == p.createRevision
  }

  ghost predicate AllStamped(data: Data, es: seq<Event>) {
    forall i :: 0 <= i < |es| ==> Stamped(Replay(data, es[..i]), es[i])
  }

  lemma LifetimeSnoc(es: seq<Event>, e: Event, key: Text)
    ensures Lifetime(es + [e], key)
         == if e.key != key then Lifetime(es, key) else if e.Deletion? then []
            else if e.prev.None? then [e] else Lifetime(es, key) + [e]
  {
    assert (es + [e])[..|es|] == es;
  }

  lemma AccountOne(data: Data, es: seq<Event>, e: Event)
    requires Accounted(data, es) && Stamped(data, e)
    ensures Accounted(Redo(data, e), es + [e])
  {
    forall key ensures var d := Redo(data, e);
                       if key in d then Tells(d[key], Lifetime(es + [e], key)) else Lifetime(es + [e], key) == [] {
      LifetimeSnoc(es, e, key);
    }
  }

  lemma {:induction false} AccountAll(data: Data, past: seq<Event>, es: seq<Event>)
    requires Accounted(data, past) && AllStamped(data, es)
    ensures Accounted(Replay(data, es), past + es)
    decreases |es|
  {
    if es == [] {
      assert past + es == past;
    } else {
      var front, e := es[..|es| - 1], es[|es| - 1];
      assert AllStamped(data, front) by {
        assert forall i :: 0 <= i < |front| ==> front[..i] == es[..i];
      }
      AccountAll(data, past, front);
      AccountOne(Replay(data, front), past + front, e);
      assert past + front + [e] == past + es;
    }
  }

  lemma {:induction false} OpsStamped(data: Data, ops: seq<TxnOp>, rev: int)
    ensures AllStamped(data, OpsEvents(data, ops, rev))
    decreases |ops|
  {
    if ops != [] {
      var front, op := ops[..|ops| - 1], ops[|ops| - 1];
      OpsStamped(data, front, rev);
      OpsTold(data, front, rev);
      StampedSnoc(data, OpsEvents(data, front, rev), OpEvents(OpsData(data, front, rev), op, rev));
    }
  }

  lemma StampedSnoc(data: Data, es: seq<Event>, more: seq<Event>)
    requires AllStamped(data, es) && |more| <= 1 && (more != [] ==> Stamped(Replay(data, es), more[0]))
    ensures AllStamped(data, es + more)
  {
    var all := es + more;
    forall i | 0 <= i < |all| ensures Stamped(Replay(data, all[..i]), all[i]) {
      if i < |es| {
        assert all[..i] == es[..i];
      } else {
        assert all[..i] == es;
      }
    }
  }

  lemma SingleStamped(data: Data, es: seq<Event>)
    requires |es| <= 1 && forall i :: 0 <= i < |es| ==> Stamped(data, es[i])
    ensures AllStamped(data, es)
  {
    assert Replay(data, []) == data;
    assert forall i :: 0 <= i < |es| ==> es[..i] == [];
  }

  lemma TxnStamped(s: View, cmd: Command)
    requires cmd.op == Txn
    ensures AllStamped(s.data, Execute(s, cmd).events)
  {
    if cmd.txn.Some? {
      OpsStamped(s.data, Branch(s, cmd.txn.value), s.revision + 1);
    }
  }

  lemma WriteStamped(s: View, cmd: Command)
    requires cmd.op == SetOp || cmd.op == PutOp || cmd.op == Delete || cmd.op == Incr
    ensures AllStamped(s.data, Execute(s, cmd).events)
  {
    SingleStamped(s.data, Execute(s, cmd).events);
  }

  lemma ExecuteStamped(s: View, cmd: Command)
    ensures AllStamped(s.data, Execute(s, cmd).events)
  {
    match cmd.op
    case Txn => TxnStamped(s, cmd);
    case SetOp => WriteStamped(s, cmd);
    case PutOp => WriteStamped(s, cmd);
    case Delete => WriteStamped(s, cmd);
    case Incr => WriteStamped(s, cmd);
    case _ =>
  }

  /** Over every run, a key is present exactly while its lifetime is open; its version counts the
      puts of that lifetime, and its revisions are those of the first and the last of them. */
  lemma {:induction false} VersionsCount(render: Render, log: seq<Command>)
    ensures Accounted(ApplyAll(render, EMPTY_STORE, log).data, Stream(render, EMPTY_STORE, log))
    decreases |log|
  {
    if log != [] {
      var front, cmd := log[..|log| - 1], log[|log| - 1];
      var mid := ApplyAll(render, EMPTY_STORE, front);
      VersionsCount(render, front);
      VersionStep(render, mid, cmd, Stream(render, EMPTY_STORE, front));
    }
  }

  lemma VersionStep(render: Render, s: Store, cmd: Command, past: seq<Event>)
    requires Accounted(s.data, past)
    ensures Accounted(KvModel.Apply(render, s, cmd).0.data, past + Emitted(s, cmd))
  {
    var t := Clocked(s, cmd);
    if Stale(t, cmd) {
      assert past + [] == past;
    } else {
      ExecuteTold(ViewOf(t), cmd);
      ExecuteStamped(ViewOf(t), cmd);
      AccountAll(s.data, past, Execute(ViewOf(t), cmd).events);
    }
  }

  // ---------------------------------------------------------------------------
  // Counters

  /** A counter command that succeeds leaves text that reads as the old number plus the delta. */
  lemma IncrAdds(s: View, cmd: Command)
    requires DoIncr(s, cmd).mutated
    ensures var prev := LiveAt(s, cmd.key);
            var before := if prev.None? then Some(0) else Decimals.Parse(prev.value.value);
            var e := DoIncr(s, cmd);
            && before.Some? && Decimals.Parse(cmd.value).Some? && cmd.key in e.data
            && Decimals.Parse(e.data[cmd.key].value) == Some(before.value + Decimals.Parse(cmd.value).value)
  {
  }

  // ---------------------------------------------------------------------------
  // Expiry

  /** The store as a sweep would leave it. */
  function Swept(s: View): View {
    s.(data := s.data - Expired(s))
  }

  /** A sweep removes exactly what is no longer live. */
  lemma SweepRemovesExpired(s: View)
    requires !Exhausted(s)
    ensures var e := DoTick(s);
            && e.data == Swept(s).data && e.reply == Count(|Expired(s)|)
            && (forall k :: k in s.data && s.data[k].expiresAt >= 0 ==> (k in e.data <==> Live(s.clock, s.data[k])))
  {
  }

  ghost predicate NoNegativeExpiry(s: View) {
    forall k :: k in s.data ==> s.data[k].expiresAt >= 0
  }

  lemma {:induction false} OpsExpiry(data: Data, ops: seq<TxnOp>, rev: int)
    requires forall k :: k in data ==> data[k].expiresAt >= 0
    ensures forall k :: k in OpsData(data, ops, rev) ==> OpsData(data, ops, rev)[k].expiresAt >= 0
    decreases |ops|
  {
    if ops != [] {
      OpsExpiry(data, ops[..|ops| - 1], rev);
    }
  }

  lemma ExecuteExpiry(s: View, cmd: Command)
    requires NoNegativeExpiry(s) && s.clock >= 0
    ensures NoNegativeExpiry(s.(data := Execute(s, cmd).data))
  {
    if cmd.op == Txn && cmd.txn.Some? {
      OpsExpiry(s.data, Branch(s, cmd.txn.value), s.revision + 1);
    }
  }

  /** The clock starts at 0 and only advances, so every expiry is 0 or a later time. */
  lemma {:induction false} ExpiryNeverNegative(render: Render, log: seq<Command>)
    ensures var s := ApplyAll(render, EMPTY_STORE, log);
            NoNegativeExpiry(ViewOf(s)) && s.clock >= 0
    decreases |log|
  {
    if log != [] {
      var front, cmd := log[..|log| - 1], log[|log| - 1];
      ExpiryNeverNegative(render, front);
      ExecuteExpiry(ViewOf(Clocked(ApplyAll(render, EMPTY_STORE, front), cmd)), cmd);
    }
  }

  lemma SweptLooksTheSame(s: View, key: Text)
    requires NoNegativeExpiry(s)
    ensures LiveAt(Swept(s), key) == LiveAt(s, key) && LiveKeys(Swept(s), key) == LiveKeys(s, key)
  {
  }

  lemma PickSwept(s: View, keys: seq<Text>)
    requires forall k :: k in keys ==> k in Swept(s).data
    ensures Pick(Swept(s).data, keys) == Pick(s.data, keys)
  {
  }

  lemma LookupsNeedNoSweep(s: View, cmd: Command)
    requires NoNegativeExpiry(s) && (cmd.op == Get || cmd.op == GetV2)
    ensures Execute(s, cmd).reply == Execute(Swept(s), cmd).reply
  {
    SweptLooksTheSame(s, cmd.key);
  }

  lemma UpdatesNeedNoSweep(s: View, cmd: Command)
    requires NoNegativeExpiry(s) && (cmd.op == Incr || cmd.op == Delete)
    ensures Execute(s, cmd).reply == Execute(Swept(s), cmd).reply
  {
    SweptLooksTheSame(s, cmd.key);
  }

  lemma ListingsNeedNoSweep(s: View, cmd: Command)
    requires NoNegativeExpiry(s) && (cmd.op == List || cmd.op == Range)
    ensures Execute(s, cmd).reply == Execute(Swept(s), cmd).reply
  {
    var prefix := if cmd.op == List then [] else cmd.key;
    SweptLooksTheSame(s, prefix);
    PickSwept(s, Sorted(LiveKeys(s, prefix)));
  }

  /** No read, counter, delete or condition can tell whether expired keys have been swept yet. */
  lemma ExpiryNeedsNoSweep(s: View, cmd: Command)
    requires NoNegativeExpiry(s)
    requires cmd.op == Get || cmd.op == GetV2 || cmd.op == List || cmd.op == Range || cmd.op == Incr || cmd.op == Delete
    ensures Execute(s, cmd).reply == Execute(Swept(s), cmd).reply
  {
    if cmd.op == Get || cmd.op == GetV2 {
      LookupsNeedNoSweep(s, cmd);
    } else if cmd.op == Incr || cmd.op == Delete {
      UpdatesNeedNoSweep(s, cmd);
    } else {
      ListingsNeedNoSweep(s, cmd);
    }
  }

  lemma ConditionsNeedNoSweep(s: View, c: Compare)
    requires NoNegativeExpiry(s)
    ensures Holds(s, c) <==> Holds(Swept(s), c)
  {
    SweptLooksTheSame(s, c.key);
  }
}
