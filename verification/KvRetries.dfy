/** Exactly-once: retries of commands the dedup table remembers leave no trace, evictions included. */
module KvRetries {
  import opened LogTypes
  import opened Texts
  import opened KvModel

  // ---------------------------------------------------------------------------
  // Tables that evict alike

  /** The same clients, sequence numbers and results, and the clients in the same order of age. */
  ghost predicate Alike(d: DedupTable, d': DedupTable) {
    && d.Keys == d'.Keys
    && (forall id :: id in d ==> d[id].seqNum == d'[id].seqNum && d[id].result == d'[id].result)
    && (forall x, y :: x in d && y in d ==> (d[x].order < d[y].order <==> d'[x].order < d'[y].order))
  }

  ghost predicate OrdersUpTo(d: DedupTable, index: nat) {
    forall id :: id in d ==> d[id].order <= index
  }

  /** Recording a client anew makes it the youngest of either table. */
  lemma RecordAlike(d: DedupTable, d': DedupTable, id: Text, seqNum: nat, result: seq<byte>, index: nat, index': nat)
    requires Alike(d, d') && OrdersUpTo(d, index) && OrdersUpTo(d', index')
    ensures Alike(d[id := DedupEntry(seqNum, result, index + 1)], d'[id := DedupEntry(seqNum, result, index' + 1)])
  {
  }

  lemma SameOldest(d: DedupTable, d': DedupTable)
    requires Alike(d, d') && d != map[]
    ensures d' != map[] && Oldest(d) == Oldest(d')
  {
    var id := Oldest(d);
    assert id in d'.Keys;
    forall o | o in d' && o != id ensures Older(d'[id], id, d'[o], o) {
      assert Older(d[id], id, d[o], o);
      assert !(d[o].order < d[id].order);
    }
    OldestUnique(d', id, Oldest(d'));
  }

  lemma WithoutAlike(d: DedupTable, d': DedupTable, id: Text)
    requires Alike(d, d')
    ensures Alike(d - {id}, d' - {id})
  {
  }

  /** Eviction takes the same clients out of either table. */
  lemma {:induction false} EvictedAlike(d: DedupTable, d': DedupTable)
    requires Alike(d, d')
    ensures Alike(Evicted(d), Evicted(d'))
    decreases |d|
  {
    assert |d| == |d.Keys| == |d'.Keys| == |d'|;
    if |d| > MAX_DEDUP_ENTRIES {
      SameOldest(d, d');
      var id := Oldest(d);
      assert (d - {id}).Keys == d.Keys - {id};
      WithoutAlike(d, d', id);
      EvictedAlike(d - {id}, d' - {id});
    }
  }

  /** Eviction only removes, and stops at the limit. */
  lemma {:induction false} EvictedWithin(d: DedupTable)
    ensures Evicted(d).Keys <= d.Keys && |Evicted(d)| <= MAX_DEDUP_ENTRIES
    ensures forall id :: id in Evicted(d) ==> Evicted(d)[id] == d[id]
    decreases |d|
  {
    if |d| > MAX_DEDUP_ENTRIES {
      var id := Oldest(d);
      assert (d - {id}).Keys == d.Keys - {id};
      EvictedWithin(d - {id});
    }
  }

  /** Exactly as many clients go as are too many, and they are the oldest. */
  ghost predicate EvictsOldest(d: DedupTable, e: DedupTable) {
    && e.Keys <= d.Keys && (forall id :: id in e ==> e[id] == d[id])
    && |e| == (if |d| <= MAX_DEDUP_ENTRIES then |d| else MAX_DEDUP_ENTRIES)
    && forall gone, kept :: gone in d && gone !in e && kept in e ==> Older(d[gone], gone, d[kept], kept)
  }

  lemma OneFewer(d: DedupTable, id: Text, e: DedupTable)
    requires |d| > MAX_DEDUP_ENTRIES && IsOldest(d, id) && EvictsOldest(d - {id}, e)
    ensures EvictsOldest(d, e)
  {
    assert (d - {id}).Keys == d.Keys - {id} && |d.Keys| == |d| && |(d - {id}).Keys| == |d - {id}|;
  }

  lemma {:induction false} EvictedExact(d: DedupTable)
    ensures EvictsOldest(d, Evicted(d))
    decreases |d|
  {
    if |d| > MAX_DEDUP_ENTRIES {
      var id := Oldest(d);
      assert (d - {id}).Keys == d.Keys - {id};
      EvictedExact(d - {id});
      OneFewer(d, id, Evicted(d - {id}));
    }
  }

  // ---------------------------------------------------------------------------
  // Stores that behave alike

  /** Equal but for the apply index and the eviction orders counted by it. */
  ghost predicate Same(s: Store, s': Store) {
    && ViewOf(s) == ViewOf(s') && s.recent == s'.recent
    && Alike(s.dedup, s'.dedup) && OrdersUpTo(s.dedup, s.index) && OrdersUpTo(s'.dedup, s'.index)
  }

  /** The store remembers a command of this client at or past this one, and its clock has seen it. */
  predicate Remembers(s: Store, cmd: Command) {
    Stale(s, cmd) && s.clock >= cmd.timestamp
  }

  lemma RetryIsIdle(render: Render, s: Store, cmd: Command)
    requires Remembers(s, cmd)
    ensures Apply(render, s, cmd) == (s.(index := s.index + 1), s.dedup[cmd.client].result)
  {
  }

  lemma TablesSame(d: DedupTable, d': DedupTable, client: Text, seqNum: nat, result: seq<byte>, index: nat, index': nat)
    requires Alike(d, d') && OrdersUpTo(d, index) && OrdersUpTo(d', index')
    ensures var e := Evicted(d[client := DedupEntry(seqNum, result, index + 1)]);
            var e' := Evicted(d'[client := DedupEntry(seqNum, result, index' + 1)]);
            Alike(e, e') && OrdersUpTo(e, index + 1) && OrdersUpTo(e', index' + 1)
  {
    var r := d[client := DedupEntry(seqNum, result, index + 1)];
    var r' := d'[client := DedupEntry(seqNum, result, index' + 1)];
    RecordAlike(d, d', client, seqNum, result, index, index');
    EvictedAlike(r, r');
    EvictedOrders(r, index + 1);
    EvictedOrders(r', index' + 1);
  }

  lemma RecordedSame(t: Store, t': Store, cmd: Command, e: Effect, result: seq<byte>)
    requires t.index > 0 && t'.index > 0 && ViewOf(t) == ViewOf(t') && t.recent == t'.recent && Alike(t.dedup, t'.dedup)
    requires OrdersUpTo(t.dedup, t.index - 1) && OrdersUpTo(t'.dedup, t'.index - 1)
    ensures Same(Recorded(t, cmd, e, result), Recorded(t', cmd, e, result))
  {
    if e.mutated && cmd.client != [] {
      TablesSame(t.dedup, t'.dedup, cmd.client, cmd.seqNum, result, t.index - 1, t'.index - 1);
    }
  }

  lemma EvictedOrders(d: DedupTable, index: nat)
    requires OrdersUpTo(d, index)
    ensures OrdersUpTo(Evicted(d), index)
  {
    EvictedWithin(d);
  }

  /** A command does the same to stores that differ only in bookkeeping. */
  lemma SameStep(render: Render, s: Store, s': Store, cmd: Command)
    requires Same(s, s')
    ensures Same(Apply(render, s, cmd).0, Apply(render, s', cmd).0)
    ensures Apply(render, s, cmd).1 == Apply(render, s', cmd).1
  {
    var t, t' := Clocked(s, cmd), Clocked(s', cmd);
    if !Stale(t, cmd) {
      var e := Execute(ViewOf(t), cmd);
      RecordedSame(t, t', cmd, e, render(e.reply));
    }
  }

  // ---------------------------------------------------------------------------
  // What the store remembers

  /** What every run keeps: the table is within its limit and ages lie in the past. */
  ghost predicate TableSound(s: Store) {
    |s.dedup| <= MAX_DEDUP_ENTRIES && OrdersUpTo(s.dedup, s.index)
  }

  lemma TableStaysSound(render: Render, s: Store, cmd: Command)
    requires TableSound(s)
    ensures TableSound(Apply(render, s, cmd).0)
  {
    var t := Clocked(s, cmd);
    if !Stale(t, cmd) {
      var e := Execute(ViewOf(t), cmd);
      EvictedWithin(t.dedup[cmd.client := DedupEntry(cmd.seqNum, render(e.reply), t.index)]);
    }
  }

  lemma {:induction false} RunTableSound(render: Render, s: Store, log: seq<Command>)
    requires TableSound(s)
    ensures TableSound(ApplyAll(render, s, log))
    decreases |log|
  {
    if log != [] {
      RunTableSound(render, s, log[..|log| - 1]);
      TableStaysSound(render, ApplyAll(render, s, log[..|log| - 1]), log[|log| - 1]);
    }
  }

  /** The youngest client survives making room for itself. */
  lemma YoungestKept(d: DedupTable, id: Text, e: DedupEntry)
    requires |d| <= MAX_DEDUP_ENTRIES && forall o :: o in d ==> d[o].order < e.order
    ensures id in Evicted(d[id := e]) && Evicted(d[id := e])[id] == e
  {
    var d' := d[id := e];
    assert d'.Keys == d.Keys + {id} && |d.Keys| == |d|;
    if |d'| > MAX_DEDUP_ENTRIES {
      assert |d.Keys + {id}| <= |d.Keys| + 1;
      var victim := Oldest(d');
      YoungestNotOldest(d, id, e, victim);
      assert (d' - {victim}).Keys == d'.Keys - {victim};
      assert Evicted(d') == Evicted(d' - {victim}) == d' - {victim};
    }
  }

  lemma YoungestNotOldest(d: DedupTable, id: Text, e: DedupEntry, victim: Text)
    requires d.Keys - {id} != {} && (forall o :: o in d ==> d[o].order < e.order) && IsOldest(d[id := e], victim)
    ensures victim != id
  {
    var o :| o in d.Keys - {id};
    assert o in d[id := e];
  }

  /** Every client command that counts as a mutation is remembered once applied, whoever else has
      to make room for it. */
  lemma MutationRemembered(render: Render, s: Store, cmd: Command)
    requires TableSound(s) && cmd.client != [] && Execute(ViewOf(Clocked(s, cmd)), cmd).mutated
    ensures Remembers(Apply(render, s, cmd).0, cmd)
  {
    var t := Clocked(s, cmd);
    if !Stale(t, cmd) {
      var e := Execute(ViewOf(t), cmd);
      YoungestKept(t.dedup, cmd.client, DedupEntry(cmd.seqNum, render(e.reply), t.index));
    }
  }

  /** And stays remembered for as long as its client stays in the table. */
  lemma StepRemembers(render: Render, s: Store, cmd: Command, c: Command)
    requires Remembers(s, c) && c.client in Apply(render, s, cmd).0.dedup
    ensures Remembers(Apply(render, s, cmd).0, c)
  {
    var t := Clocked(s, cmd);
    if !Stale(t, cmd) {
      var e := Execute(ViewOf(t), cmd);
      EvictedWithin(t.dedup[cmd.client := DedupEntry(cmd.seqNum, render(e.reply), t.index)]);
    }
  }

  /** After k commands the client is in the table. */
  ghost predicate InTable(render: Render, s: Store, log: seq<Command>, k: nat, client: Text)
    requires k <= |log|
  {
    client in ApplyAll(render, s, log[..k]).dedup
  }

  lemma ApplyNext(render: Render, s: Store, log: seq<Command>, k: nat)
    requires k < |log|
    ensures ApplyAll(render, s, log[..k + 1]) == Apply(render, ApplyAll(render, s, log[..k]), log[k]).0
  {
    assert log[..k + 1][..k] == log[..k];
  }

  lemma {:induction false} RunRemembers(render: Render, s: Store, log: seq<Command>, i: nat, k: nat, c: Command)
    requires i <= k <= |log| && Remembers(ApplyAll(render, s, log[..i]), c)
    requires forall j :: i < j <= k ==> InTable(render, s, log, j, c.client)
    ensures Remembers(ApplyAll(render, s, log[..k]), c)
    decreases k
  {
    if i < k {
      RunRemembers(render, s, log, i, k - 1, c);
      RememberOneMore(render, s, log, k - 1, c);
    }
  }

  lemma RememberOneMore(render: Render, s: Store, log: seq<Command>, k: nat, c: Command)
    requires k < |log| && Remembers(ApplyAll(render, s, log[..k]), c) && InTable(render, s, log, k + 1, c.client)
    ensures Remembers(ApplyAll(render, s, log[..k + 1]), c)
  {
    ApplyNext(render, s, log, k);
    StepRemembers(render, ApplyAll(render, s, log[..k]), log[k], c);
  }

  // ---------------------------------------------------------------------------
  // Logs with retries

  /** What is left of xs without the marked positions. */
  function Without<T>(xs: seq<T>, extra: seq<bool>): seq<T>
    requires |xs| == |extra|
  {
    if xs == [] then []
    else
      var n := |xs| - 1;
      Without(xs[..n], extra[..n]) + if extra[n] then [] else [xs[n]]
  }

  /** Only commands the store remembers when they arrive are marked. */
  ghost predicate OnlyRetries(render: Render, s: Store, log: seq<Command>, extra: seq<bool>) {
    |log| == |extra| && forall i: nat :: i < |log| && extra[i] ==> Remembers(ApplyAll(render, s, log[..i]), log[i])
  }

  lemma FrontRetries(render: Render, s: Store, log: seq<Command>, extra: seq<bool>)
    requires OnlyRetries(render, s, log, extra) && log != []
    ensures OnlyRetries(render, s, log[..|log| - 1], extra[..|log| - 1])
    ensures extra[|log| - 1] ==> Remembers(ApplyAll(render, s, log[..|log| - 1]), log[|log| - 1])
  {
    var n := |log| - 1;
    forall i: nat | i < n && extra[..n][i] ensures Remembers(ApplyAll(render, s, log[..n][..i]), log[..n][i]) {
      assert extra[i] && log[..n][..i] == log[..i];
    }
  }

  /** Striking the marked positions changes neither the state nor any remaining reply. */
  ghost predicate Invisible(render: Render, s: Store, log: seq<Command>, extra: seq<bool>)
    requires |log| == |extra|
  {
    && Same(ApplyAll(render, s, Without(log, extra)), ApplyAll(render, s, log))
    && Replies(render, s, Without(log, extra)) == Without(Replies(render, s, log), extra)
  }

  lemma ExtraStep(render: Render, s: Store, log: seq<Command>, extra: seq<bool>)
    requires |log| == |extra| > 0 && extra[|log| - 1]
    requires Invisible(render, s, log[..|log| - 1], extra[..|log| - 1])
    requires Remembers(ApplyAll(render, s, log[..|log| - 1]), log[|log| - 1])
    ensures Invisible(render, s, log, extra)
  {
    var n := |log| - 1;
    RetryIsIdle(render, ApplyAll(render, s, log[..n]), log[n]);
    assert Without(log, extra) == Without(log[..n], extra[..n]);
    assert Replies(render, s, log)[..n] == Replies(render, s, log[..n]);
  }

  lemma KeptStep(render: Render, s: Store, log: seq<Command>, extra: seq<bool>)
    requires |log| == |extra| > 0 && !extra[|log| - 1]
    requires Invisible(render, s, log[..|log| - 1], extra[..|log| - 1])
    ensures Invisible(render, s, log, extra)
  {
    var n := |log| - 1;
    var less := Without(log[..n], extra[..n]);
    SameStep(render, ApplyAll(render, s, less), ApplyAll(render, s, log[..n]), log[n]);
    assert (less + [log[n]])[..|less|] == less;
    assert Replies(render, s, log)[..n] == Replies(render, s, log[..n]);
  }

  /** Exactly-once: strike out any number of retries from a log, and the data, the revision, the
      clock, the event ring, the dedup results, the clients remembered and every remaining reply come
      out the same, whoever was evicted in between. */
  lemma {:induction false} RetriesInvisible(render: Render, s: Store, log: seq<Command>, extra: seq<bool>)
    requires OnlyRetries(render, s, log, extra) && OrdersUpTo(s.dedup, s.index)
    ensures Invisible(render, s, log, extra)
    decreases |log|
  {
    if log != [] {
      var n := |log| - 1;
      FrontRetries(render, s, log, extra);
      RetriesInvisible(render, s, log[..n], extra[..n]);
      if extra[n] {
        ExtraStep(render, s, log, extra);
      } else {
        KeptStep(render, s, log, extra);
      }
    }
  }

  /** Position i repeats the command at j, a mutation whose client was never evicted in between. */
  ghost predicate Repeats(render: Render, s: Store, log: seq<Command>, j: nat, i: nat) {
    && j < i < |log| && log[j] == log[i] && log[j].client != []
    && Execute(ViewOf(Clocked(ApplyAll(render, s, log[..j]), log[j])), log[j]).mutated
    && forall k :: j < k <= i ==> InTable(render, s, log, k, log[j].client)
  }

  lemma RepeatRemembered(render: Render, s: Store, log: seq<Command>, j: nat, i: nat)
    requires TableSound(s) && Repeats(render, s, log, j, i)
    ensures Remembers(ApplyAll(render, s, log[..i]), log[i])
  {
    RunTableSound(render, s, log[..j]);
    ApplyNext(render, s, log, j);
    MutationRemembered(render, ApplyAll(render, s, log[..j]), log[j]);
    RunRemembers(render, s, log, j + 1, i, log[j]);
  }

  /** From an empty store: copies of a recorded client mutation, inserted anywhere later in any log
      for as long as that client stays in the table, leave no trace. */
  lemma ExactlyOnce(render: Render, log: seq<Command>, extra: seq<bool>)
    requires |log| == |extra|
    requires forall i: nat :: i < |log| && extra[i] ==> exists j: nat :: Repeats(render, EMPTY_STORE, log, j, i)
    ensures Invisible(render, EMPTY_STORE, log, extra)
  {
    forall i: nat | i < |log| && extra[i] ensures Remembers(ApplyAll(render, EMPTY_STORE, log[..i]), log[i]) {
      var j: nat :| Repeats(render, EMPTY_STORE, log, j, i);
      RepeatRemembered(render, EMPTY_STORE, log, j, i);
    }
    RetriesInvisible(render, EMPTY_STORE, log, extra);
  }
}
