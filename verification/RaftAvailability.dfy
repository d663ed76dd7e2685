/** The cluster is never stuck: every run can go on, by timeouts and deliveries alone, to a state in
    which a new command is committed and every server has applied it. */
module RaftAvailability {
  import opened LogTypes
  import opened Membership
  import opened RaftNode
  import opened RaftProtocol
  import opened RaftTheorems
  import opened RaftProgress
  import opened RaftRounds
  import opened RaftExchange
  import opened RaftServing
  import opened RaftElecting

  // ---------------------------------------------------------------------------
  // A command for the leader

  lemma BatchIs(s: Sys, l: ServerId, data: seq<byte>)
    requires Wired(s) && l in s.nodes
    ensures Enabled(s, ClientBatch(l, [data]))
    ensures Act(s, ClientBatch(l, [data])) == Updated(s, l, Propose(Cfg(s, l), s.nodes[l], [data]), {})
  {
  }

  /** The leader's log with the command as its last entry, everything else being as it was but for an
      immediate commit when there is no other voter. */
  ghost predicate Took(s: Sys, n: Node, m: Node, data: seq<byte>) {
    && m.log == n.log + [LogEntry(n.term, |n.log| + 1, ENTRY_NORMAL, data)]
    && m == n.(log := m.log, commitIndex := m.commitIndex)
    && (|Voters(s.servers)| <= 1 ==> m.commitIndex == |m.log|)
  }

  lemma TookIs(s: Sys, l: ServerId, data: seq<byte>)
    requires InOffice(s, l)
    ensures Took(s, s.nodes[l], Propose(Cfg(s, l), s.nodes[l], [data]), data)
  {
    var n := s.nodes[l];
    ProposalExact(Cfg(s, l), n, [data]);
    var m := Propose(Cfg(s, l), n, [data]);
    assert m.log == m.log[..|n.log|] + [m.log[|n.log|]];
  }

  lemma Command(s: Sys, l: ServerId, data: seq<byte>) returns (s': Sys)
    requires Live(s) && InOffice(s, l)
    ensures Live(s') && Leads(s, s') && Within(s, s', {l}) && Took(s, s.nodes[l], s'.nodes[l], data)
  {
    Wires(s);
    TookIs(s, l, data);
    BatchIs(s, l, data);
    s' := Take(s, ClientBatch(l, [data]));
    UpdateWithin(s, l, s'.nodes[l], {});
  }

  lemma PeerPending(s: Sys, s': Sys, l: ServerId, data: seq<byte>, f: ServerId)
    requires Live(s) && InOffice(s, l) && Within(s, s', {l}) && Took(s, s.nodes[l], s'.nodes[l], data)
    requires f in s.nodes && f != l
    ensures Pending(s', l, f)
  {
    LeaderTracks(s, l);
    assert s'.nodes[f] == s.nodes[f];
  }

  lemma AloneNothingLeft(s: Sys, s': Sys, l: ServerId, data: seq<byte>)
    requires Live(s) && l in s.nodes && Within(s, s', {l}) && Took(s, s.nodes[l], s'.nodes[l], data) && s.nodes.Keys == {l}
    ensures NothingLeft(Cfg(s', l), s'.nodes[l])
  {
    ManyVoters(s);
  }

  lemma CommandPending(s: Sys, s': Sys, l: ServerId, data: seq<byte>)
    requires Live(s) && InOffice(s, l) && Within(s, s', {l}) && Took(s, s.nodes[l], s'.nodes[l], data)
    ensures AllPending(s', l, s.nodes.Keys - {l}) && AllDone(s', l, s.nodes.Keys - {l})
    ensures s.nodes.Keys == {l} ==> NothingLeft(Cfg(s', l), s'.nodes[l])
  {
    forall f | f in s.nodes.Keys - {l} ensures Pending(s', l, f) {
      PeerPending(s, s', l, data, f);
    }
    if s.nodes.Keys == {l} {
      AloneNothingLeft(s, s', l, data);
    }
  }

  // ---------------------------------------------------------------------------
  // Everywhere

  /** The log of l ends with the command, and every server holds that log as a prefix of its own, knows
      it to be committed and has applied all of it. */
  ghost predicate EverywhereApplied(s: Sys, l: ServerId, data: seq<byte>) {
    && l in s.nodes && s.nodes[l].log != []
    && var log := s.nodes[l].log;
       && log[|log| - 1].kind == ENTRY_NORMAL && log[|log| - 1].data == data && log[|log| - 1].term == s.nodes[l].term
       && forall n :: n in s.nodes ==>
            log <= s.nodes[n].log && |log| <= s.nodes[n].commitIndex && |log| <= s.nodes[n].applyIndex
  }

  lemma CommitEverywhere(s: Sys, l: ServerId, data: seq<byte>) returns (s': Sys)
    requires Live(s) && InOffice(s, l)
    ensures Live(s') && Leads(s, s') && l in s'.nodes && AllTold(s', l, {}) && s'.nodes.Keys == s.nodes.Keys
    ensures var n := s'.nodes[l];
            n.log == s.nodes[l].log + [LogEntry(n.term, |s.nodes[l].log| + 1, ENTRY_NORMAL, data)] && n.commitIndex == |n.log|
  {
    var peers := s.nodes.Keys - {l};
    var s1 := Command(s, l, data);
    CommandPending(s, s1, l, data);
    assert peers == {} ==> s.nodes.Keys == {l};
    var s2 := ServeAll(s1, l, peers);
    assert Cfg(s2, l) == Cfg(s1, l);
    AllCommitted(s2, l);
    s' := TellAll(s2, l, peers);
    Then(s, s1, s2);
    Then(s, s2, s');
  }

  lemma ToldMayApply(s: Sys, l: ServerId)
    requires l in s.nodes && AllTold(s, l, {}) && s.nodes[l].commitIndex == |s.nodes[l].log|
    ensures MayApply(s, |s.nodes[l].log|)
    ensures forall n :: n in s.nodes ==> s.nodes[l].log <= s.nodes[n].log
  {
    var log := s.nodes[l].log;
    forall n | n in s.nodes ensures |log| <= s.nodes[n].commitIndex && log <= s.nodes[n].log {
      if n != l {
        assert Told(s, l, n);
        assert log[..|log|] == log;
      }
    }
  }

  lemma LiveCommands(s: Sys, data: seq<byte>) returns (s': Sys, l: ServerId)
    requires Live(s)
    ensures Leads(s, s') && EverywhereApplied(s', l, data)
  {
    var s1: Sys;
    s1, l := Elect(s);
    var s2 := CommitEverywhere(s1, l, data);
    ToldMayApply(s2, l);
    s' := ApplyEverywhere(s2, s2.nodes.Keys, |s2.nodes[l].log|);
    Then(s, s1, s2);
    Then(s, s2, s');
  }

  // ---------------------------------------------------------------------------
  // Runs

  lemma ExtendRun(run: seq<Sys>, acts: seq<Action>, a: Action)
    requires IsRun(run, acts) && Enabled(run[|acts|], a)
    ensures IsRun(run + [Act(run[|acts|], a)], acts + [a])
  {
    var run', acts' := run + [Act(run[|acts|], a)], acts + [a];
    forall k | 0 <= k < |acts'| ensures Enabled(run'[k], acts'[k]) && run'[k + 1] == Act(run'[k], acts'[k]) {
      assert k < |acts| ==> run'[k] == run[k] && run'[k + 1] == run[k + 1] && acts'[k] == acts[k];
    }
  }

  lemma {:induction false} FollowTrail(run: seq<Sys>, acts: seq<Action>, states: seq<Sys>, s': Sys)
    returns (run': seq<Sys>, acts': seq<Action>)
    requires IsRun(run, acts) && Trail(states, run[|acts|], s')
    ensures IsRun(run', acts') && run <= run' && acts <= acts' && run'[|acts'|] == s'
    decreases |states|
  {
    if |states| == 1 {
      run', acts' := run, acts;
    } else {
      assert Moves(states[0], states[1]);
      var a := MoveAction(states[0], states[1]);
      ExtendRun(run, acts, a);
      assert Trail(states[1..], states[1], s');
      run', acts' := FollowTrail(run + [states[1]], acts + [a], states[1..], s');
    }
  }

  /** Whatever has happened in a run, restarts, lost messages, rival candidates and diverging logs
      included, it has a continuation in which the given command is committed and applied by every
      server, in one and the same place. */
  lemma NeverStuck(run: seq<Sys>, acts: seq<Action>, data: seq<byte>)
    returns (run': seq<Sys>, acts': seq<Action>, l: ServerId)
    requires IsRun(run, acts)
    ensures IsRun(run', acts') && run <= run' && acts <= acts' && EverywhereApplied(run'[|acts'|], l, data)
  {
    var s := run[|acts|];
    RunIsLive(run, acts, |acts|);
    var s': Sys;
    s', l := LiveCommands(s, data);
    var states :| Trail(states, s, s');
    run', acts' := FollowTrail(run, acts, states, s');
  }
}
