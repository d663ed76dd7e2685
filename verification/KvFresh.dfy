/** What the dedup table must not swallow (pkg/fsm/kv.go:191-217, 435-443): a command is answered from it
    exactly when it is a retry, what it answers is what the client was told, and a client whose
    sequence numbers rise never notices the table. */
module KvFresh {
  import opened LogTypes
  import opened Texts
  import opened KvModel
  import KvRetries

  // ---------------------------------------------------------------------------
  // One command

  /** The client is named, known, and has had a command at or past this sequence number recorded. */
  ghost predicate Retry(d: DedupTable, cmd: Command) {
    cmd.client != [] && cmd.client in d && d[cmd.client].seqNum >= cmd.seqNum
  }

  /** The clock after a command: it never goes back. */
  function Later(clock: int, cmd: Command): int {
    if clock < cmd.timestamp then cmd.timestamp else clock
  }

  /** A retry counts, moves the clock and gets the recorded bytes, and that is all. */
  ghost predicate Answered(s: Store, cmd: Command, s': Store, out: seq<byte>)
    requires cmd.client in s.dedup
  {
    && out == s.dedup[cmd.client].result
    && s' == s.(index := s.index + 1, clock := Later(s.clock, cmd))
  }

  /** Anything else is executed, told the outcome, and recorded if it is a mutation of a named client. */
  ghost predicate Carried(render: Render, s: Store, cmd: Command, s': Store, out: seq<byte>) {
    var e := Execute(View(s.data, s.revision, Later(s.clock, cmd)), cmd);
    && out == render(e.reply)
    && s'.data == e.data && s'.revision == e.revision && s'.clock == Later(s.clock, cmd) && s'.index == s.index + 1
    && s'.recent == Newest(s.recent + e.events)
    && (if e.mutated && cmd.client != [] then
          s'.dedup == Evicted(s.dedup[cmd.client := DedupEntry(cmd.seqNum, out, s.index + 1)])
        else s'.dedup == s.dedup)
  }

  /** A command is answered from the table exactly when it is a retry, and executed otherwise. */
  lemma ExecutedUnlessRetry(render: Render, s: Store, cmd: Command)
    ensures var (s', out) := Apply(render, s, cmd);
            if Retry(s.dedup, cmd) then Answered(s, cmd, s', out) else Carried(render, s, cmd, s', out)
  {
  }

  // ---------------------------------------------------------------------------
  // What the table holds

  /** After the first i commands. */
  ghost function After(render: Render, log: seq<Command>, i: nat): Store
    requires i <= |log|
  {
    ApplyAll(render, EMPTY_STORE, log[..i])
  }

  /** Command i of the log was executed, not answered from the table, and counted as a mutation. */
  ghost predicate Executed(render: Render, log: seq<Command>, i: nat)
    requires i < |log|
  {
    var s := After(render, log, i);
    !Retry(s.dedup, log[i]) && Execute(View(s.data, s.revision, Later(s.clock, log[i])), log[i]).mutated
  }

  /** The entry is what command i was told. */
  ghost predicate Tells(render: Render, log: seq<Command>, i: nat, client: Text, e: DedupEntry) {
    && i < |log| && log[i].client == client && Executed(render, log, i)
    && e == DedupEntry(log[i].seqNum, Replies(render, EMPTY_STORE, log)[i], i + 1)
  }

  lemma {:induction false} IndexCounts(render: Render, log: seq<Command>)
    ensures ApplyAll(render, EMPTY_STORE, log).index == |log|
    decreases |log|
  {
    if log != [] {
      IndexCounts(render, log[..|log| - 1]);
      ExecutedUnlessRetry(render, ApplyAll(render, EMPTY_STORE, log[..|log| - 1]), log[|log| - 1]);
    }
  }

  lemma RepliesLast(render: Render, log: seq<Command>)
    requires log != []
    ensures Replies(render, EMPTY_STORE, log) == Replies(render, EMPTY_STORE, log[..|log| - 1])
              + [Apply(render, ApplyAll(render, EMPTY_STORE, log[..|log| - 1]), log[|log| - 1]).1]
  {
  }

  lemma {:induction false} ReplyAt(render: Render, log: seq<Command>, i: nat)
    requires i < |log|
    ensures Replies(render, EMPTY_STORE, log)[i] == Apply(render, After(render, log, i), log[i]).1
    decreases |log|
  {
    var n := |log| - 1;
    RepliesLast(render, log);
    if i < n {
      var front := log[..n];
      ReplyAt(render, front, i);
      assert front[..i] == log[..i] && front[i] == log[i];
    }
  }

  /** What was true of a command is true of it in a longer log. */
  lemma TellsLonger(render: Render, log: seq<Command>, c: Command, i: nat, client: Text, e: DedupEntry)
    requires Tells(render, log, i, client, e)
    ensures Tells(render, log + [c], i, client, e)
  {
    assert (log + [c])[..i] == log[..i];
    ReplyAt(render, log, i);
    ReplyAt(render, log + [c], i);
  }

  lemma NewEntryTells(render: Render, log: seq<Command>, c: Command)
    requires c.client != [] && Executed(render, log + [c], |log|)
    ensures Tells(render, log + [c], |log|, c.client,
                  DedupEntry(c.seqNum, Apply(render, ApplyAll(render, EMPTY_STORE, log), c).1, |log| + 1))
  {
    assert (log + [c])[..|log|] == log;
    ReplyAt(render, log + [c], |log|);
  }

  lemma StepKeepsEntries(render: Render, s: Store, cmd: Command, client: Text)
    requires client in Apply(render, s, cmd).0.dedup
    ensures var s' := Apply(render, s, cmd).0;
            || (client in s.dedup && s'.dedup[client] == s.dedup[client])
            || (client == cmd.client && client != [] && !Retry(s.dedup, cmd)
                && Execute(View(s.data, s.revision, Later(s.clock, cmd)), cmd).mutated
                && s'.dedup[client] == DedupEntry(cmd.seqNum, Apply(render, s, cmd).1, s.index + 1))
  {
    ExecutedUnlessRetry(render, s, cmd);
    if !Retry(s.dedup, cmd) {
      var e := Execute(View(s.data, s.revision, Later(s.clock, cmd)), cmd);
      KvRetries.EvictedWithin(s.dedup[cmd.client := DedupEntry(cmd.seqNum, render(e.reply), s.index + 1)]);
    }
  }

  lemma TableTellsNew(render: Render, front: seq<Command>, c: Command)
    requires c.client != [] && Executed(render, front + [c], |front|)
    ensures Tells(render, front + [c], |front|, c.client,
                  DedupEntry(c.seqNum, Apply(render, ApplyAll(render, EMPTY_STORE, front), c).1, ApplyAll(render, EMPTY_STORE, front).index + 1))
  {
    IndexCounts(render, front);
    NewEntryTells(render, front, c);
  }

  lemma ExecutedLast(render: Render, front: seq<Command>, c: Command)
    ensures Executed(render, front + [c], |front|) <==>
              var s := ApplyAll(render, EMPTY_STORE, front);
              !Retry(s.dedup, c) && Execute(View(s.data, s.revision, Later(s.clock, c)), c).mutated
  {
    assert (front + [c])[..|front|] == front;
  }

  /** Whatever the table holds for a client is what one of its commands was told when it was executed. */
  lemma {:induction false} TableTells(render: Render, log: seq<Command>, client: Text) returns (i: nat)
    requires client in ApplyAll(render, EMPTY_STORE, log).dedup
    ensures Tells(render, log, i, client, ApplyAll(render, EMPTY_STORE, log).dedup[client])
    decreases |log|
  {
    var front, c := log[..|log| - 1], log[|log| - 1];
    var s := ApplyAll(render, EMPTY_STORE, front);
    assert front + [c] == log;
    StepKeepsEntries(render, s, c, client);
    if client in s.dedup && ApplyAll(render, EMPTY_STORE, log).dedup[client] == s.dedup[client] {
      i := TableTells(render, front, client);
      TellsLonger(render, front, c, i, client, s.dedup[client]);
    } else {
      i := |front|;
      ExecutedLast(render, front, c);
      TableTellsNew(render, front, c);
    }
  }

  /** A retry is told what the client was told before, for a command at or past the retried one. */
  lemma RetryToldAgain(render: Render, log: seq<Command>, k: nat) returns (i: nat)
    requires k < |log| && Retry(After(render, log, k).dedup, log[k])
    ensures i < k && log[i].client == log[k].client && log[i].seqNum >= log[k].seqNum && Executed(render, log, i)
    ensures Replies(render, EMPTY_STORE, log)[k] == Replies(render, EMPTY_STORE, log)[i]
  {
    var front := log[..k];
    i := TableTells(render, front, log[k].client);
    assert front[..i] == log[..i];
    ReplyAt(render, log, k);
    ReplyAt(render, log, i);
    ReplyAt(render, front, i);
    ExecutedUnlessRetry(render, After(render, log, k), log[k]);
  }

  // ---------------------------------------------------------------------------
  // Clients that number their commands upwards

  /** Each named client's sequence numbers rise along the log, from beyond what the table has of it. */
  ghost predicate Rising(d: DedupTable, log: seq<Command>) {
    && (forall i :: 0 <= i < |log| && log[i].client != [] && log[i].client in d ==> d[log[i].client].seqNum < log[i].seqNum)
    && (forall i, j :: 0 <= i < j < |log| && log[i].client != [] && log[i].client == log[j].client ==> log[i].seqNum < log[j].seqNum)
  }

  /** Every entry is an old one or has the sequence number of one of the client's commands. */
  ghost predicate TableFrom(d: DedupTable, log: seq<Command>, d': DedupTable) {
    forall id :: id in d' ==>
      || (id in d && d'[id].seqNum == d[id].seqNum)
      || exists i :: 0 <= i < |log| && log[i].client == id && d'[id].seqNum == log[i].seqNum
  }

  lemma TableFromOne(render: Render, d: DedupTable, log: seq<Command>, s: Store, cmd: Command)
    requires TableFrom(d, log, s.dedup)
    ensures TableFrom(d, log + [cmd], Apply(render, s, cmd).0.dedup)
  {
    var d', all := Apply(render, s, cmd).0.dedup, log + [cmd];
    forall id | id in d'
      ensures (id in d && d'[id].seqNum == d[id].seqNum) || exists i :: 0 <= i < |all| && all[i].client == id && d'[id].seqNum == all[i].seqNum
    {
      StepKeepsEntries(render, s, cmd, id);
      if id in s.dedup && d'[id] == s.dedup[id] {
        if exists i :: 0 <= i < |log| && log[i].client == id && s.dedup[id].seqNum == log[i].seqNum {
          var i :| 0 <= i < |log| && log[i].client == id && s.dedup[id].seqNum == log[i].seqNum;
          assert all[i] == log[i];
        }
      } else {
        assert all[|log|] == cmd;
      }
    }
  }

  lemma {:induction false} RunTableFrom(render: Render, s: Store, log: seq<Command>)
    ensures TableFrom(s.dedup, log, ApplyAll(render, s, log).dedup)
    decreases |log|
  {
    if log != [] {
      var front, cmd := log[..|log| - 1], log[|log| - 1];
      RunTableFrom(render, s, front);
      TableFromOne(render, s.dedup, front, ApplyAll(render, s, front), cmd);
      assert front + [cmd] == log;
    }
  }

  lemma RisingIsFresh(d: DedupTable, log: seq<Command>, d': DedupTable)
    requires log != [] && Rising(d, log) && TableFrom(d, log[..|log| - 1], d')
    ensures !Retry(d', log[|log| - 1]) && Rising(d, log[..|log| - 1])
  {
    var n := |log| - 1;
    assert forall i :: 0 <= i < n ==> log[..n][i] == log[i];
  }

  function Blank(cmd: Command): Command {
    cmd.(client := [])
  }

  function BlankAll(log: seq<Command>): (r: seq<Command>)
    ensures |r| == |log| && forall i :: 0 <= i < |r| ==> r[i] == Blank(log[i])
  {
    seq(|log|, i requires 0 <= i < |log| => Blank(log[i]))
  }

  lemma BlankSnoc(log: seq<Command>)
    requires log != []
    ensures BlankAll(log) == BlankAll(log[..|log| - 1]) + [Blank(log[|log| - 1])]
  {
  }

  lemma NameUnused(s: View, cmd: Command)
    ensures Execute(s, Blank(cmd)) == Execute(s, cmd)
  {
  }

  /** Equal but for the dedup table. */
  ghost predicate EqualButTable(s: Store, s': Store) {
    s.(dedup := map[]) == s'.(dedup := map[])
  }

  lemma FreshStep(render: Render, s: Store, s': Store, cmd: Command)
    requires EqualButTable(s, s') && !Retry(s.dedup, cmd)
    ensures EqualButTable(Apply(render, s, cmd).0, Apply(render, s', Blank(cmd)).0)
    ensures Apply(render, s, cmd).1 == Apply(render, s', Blank(cmd)).1
  {
    ExecutedUnlessRetry(render, s, cmd);
    ExecutedUnlessRetry(render, s', Blank(cmd));
    NameUnused(View(s.data, s.revision, Later(s.clock, cmd)), cmd);
  }

  /** A log in which every client's sequence numbers rise does what the same log does without any client
      names: no command is swallowed, whoever is evicted. */
  lemma {:induction false} RisingRunsInFull(render: Render, s: Store, log: seq<Command>)
    requires Rising(s.dedup, log)
    ensures EqualButTable(ApplyAll(render, s, log), ApplyAll(render, s, BlankAll(log)))
    ensures Replies(render, s, log) == Replies(render, s, BlankAll(log))
    decreases |log|
  {
    if log != [] {
      var front, cmd := log[..|log| - 1], log[|log| - 1];
      RunTableFrom(render, s, front);
      RisingIsFresh(s.dedup, log, ApplyAll(render, s, front).dedup);
      RisingRunsInFull(render, s, front);
      BlankSnoc(log);
      assert BlankAll(log)[..|log| - 1] == BlankAll(front);
      FreshStep(render, ApplyAll(render, s, front), ApplyAll(render, s, BlankAll(front)), cmd);
    }
  }
}
