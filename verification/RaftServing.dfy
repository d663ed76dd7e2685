/** A leader brings every server up to its own log, commits it, tells everybody, and all apply it. */
module RaftServing {
  import opened LogTypes
  import opened Membership
  import opened RaftNode
  import opened RaftProtocol
  import opened AbstractRaft
  import opened RaftRefinement
  import opened RaftTheorems
  import opened RaftProgress
  import opened RaftRounds
  import opened RaftExchange
  import RaftCatchUp

  // ---------------------------------------------------------------------------
  // One peer

  ghost predicate Pair(s: Sys, l: ServerId, f: ServerId) {
    && l in s.nodes && f in s.nodes && l != f && s.nodes[l].role == Leader
    && f in s.nodes[l].nextIndex && f in s.nodes[l].matchIndex
  }

  /** The peer has to be sent something, and is not ahead of the leader's term. */
  ghost predicate Pending(s: Sys, l: ServerId, f: ServerId) {
    && Pair(s, l, f) && s.nodes[f].term <= s.nodes[l].term
    && 1 <= s.nodes[l].nextIndex[f] <= |s.nodes[l].log|
  }

  /** The peer holds the leader's whole log, and the leader knows. */
  ghost predicate Done(s: Sys, l: ServerId, f: ServerId) {
    && Pair(s, l, f) && s.nodes[f].term == s.nodes[l].term && Shares(s, l, f, |s.nodes[l].log|)
    && s.nodes[l].matchIndex[f] == |s.nodes[l].log| && s.nodes[l].nextIndex[f] == |s.nodes[l].log| + 1
  }

  /** Only the tracker of f moved. */
  ghost predicate OtherTrackers(n: Node, m: Node, f: ServerId) {
    && m.nextIndex.Keys == n.nextIndex.Keys && m.matchIndex.Keys == n.matchIndex.Keys
    && (forall p :: p in n.nextIndex && p != f ==> m.nextIndex[p] == n.nextIndex[p])
    && (forall p :: p in n.matchIndex && p != f ==> m.matchIndex[p] == n.matchIndex[p])
  }

  lemma LiveNumbered(s: Sys, n: ServerId, i: nat)
    requires Live(s) && n in s.nodes && i < |s.nodes[n].log|
    ensures s.nodes[n].log[i].index == i + 1
  {
    var g :| Tracks(s, g);
    SelfAdvance(s, g);
    LogFaithfulLater(s, g, g, n);
    ActorOk(s, g, n);
    FaithfulNumbered(g.abs, s.nodes[n].log) by { Open(g.abs); }
  }

  lemma TrackedToEnd(n: Node, m: Node, f: ServerId)
    requires Acknowledged(n, m, f, |n.log|) && n.log != [] && f in n.matchIndex && f in n.nextIndex && n.matchIndex[f] <= |n.log|
    ensures OtherTrackers(n, m, f) && m.matchIndex[f] == |n.log| && m.nextIndex[f] == |n.log| + 1
  {
  }

  lemma PreviousIsAccepts(s: Sys, l: ServerId, f: ServerId, count: nat)
    requires CanExchange(s, l, f, count)
    ensures PreviousMatches(s.nodes[f].log, Request(s, l, f, count)) <==> PreviousMatches(s.nodes[f].log, Request(s, l, f, 0))
  {
  }

  lemma AgreedTracks(s: Sys, s': Sys, l: ServerId, f: ServerId, count: nat)
    requires Live(s) && Pending(s, l, f) && l in s'.nodes && f in s'.nodes && CanExchange(s, l, f, count)
    requires s.nodes[l].nextIndex[f] - 1 + count == |s.nodes[l].log| && Agreed(s, s', l, f, count)
    ensures var me, m := s.nodes[l], s'.nodes[l];
            OtherTrackers(me, m, f) && m.matchIndex[f] == |me.log| && m.nextIndex[f] == |me.log| + 1
  {
    LeaderTracks(s, l);
    RequestQuotes(s, l, f, count);
    LiveNumbered(s, l, |s.nodes[l].log| - 1);
    TrackedToEnd(s.nodes[l], s'.nodes[l], f);
  }

  lemma AgreedTerm(s: Sys, s': Sys, l: ServerId, f: ServerId, count: nat)
    requires CanExchange(s, l, f, count) && l in s'.nodes && f in s'.nodes && Agreed(s, s', l, f, count)
    ensures s'.nodes[f].term == s.nodes[l].term
  {
    RequestQuotes(s, l, f, count);
  }

  lemma AgreedDone(s: Sys, s': Sys, l: ServerId, f: ServerId, count: nat)
    requires Live(s) && Pending(s, l, f) && l in s'.nodes && f in s'.nodes && CanExchange(s, l, f, count)
    requires s.nodes[l].nextIndex[f] - 1 + count == |s.nodes[l].log| && Agreed(s, s', l, f, count)
    requires Shares(s', l, f, |s.nodes[l].log|)
    ensures Done(s', l, f) && StillLeads(s.nodes[l], s'.nodes[l]) && NothingLeft(Cfg(s, l), s'.nodes[l])
    ensures OtherTrackers(s.nodes[l], s'.nodes[l], f)
  {
    AgreedTracks(s, s', l, f, count);
    AgreedTerm(s, s', l, f, count);
  }

  /** The last exchange: everything from the agreed point on. */
  lemma SendRest(s: Sys, l: ServerId, f: ServerId) returns (s': Sys)
    requires Live(s) && Pending(s, l, f) && PreviousMatches(s.nodes[f].log, Request(s, l, f, 0))
    ensures Live(s') && Leads(s, s') && Within(s, s', {l, f}) && Done(s', l, f)
    ensures StillLeads(s.nodes[l], s'.nodes[l]) && NothingLeft(Cfg(s, l), s'.nodes[l]) && OtherTrackers(s.nodes[l], s'.nodes[l], f)
  {
    var me := s.nodes[l];
    var count := |me.log| + 1 - me.nextIndex[f];
    PreviousIsAccepts(s, l, f, count);
    s' := AcceptedRound(s, l, f, count);
    AgreedDone(s, s', l, f, count);
  }

  /** However far apart the logs are, refusals lower the next index until the rest can be sent. */
  lemma {:induction false} CatchUp(s: Sys, l: ServerId, f: ServerId) returns (s': Sys)
    requires Live(s) && Pending(s, l, f) && s.nodes[f].term == s.nodes[l].term
    ensures Live(s') && Leads(s, s') && Within(s, s', {l, f}) && Done(s', l, f)
    ensures StillLeads(s.nodes[l], s'.nodes[l]) && NothingLeft(Cfg(s, l), s'.nodes[l]) && OtherTrackers(s.nodes[l], s'.nodes[l], f)
    decreases s.nodes[l].nextIndex[f]
  {
    if PreviousMatches(s.nodes[f].log, Request(s, l, f, 0)) {
      s' := SendRest(s, l, f);
    } else {
      LeaderTracks(s, l);
      var mid := RefusedRound(s, l, f);
      LeaderTracks(mid, l);
      s' := CatchUp(mid, l, f);
      Then(s, mid, s');
      WithinThen(s, mid, s', {l, f}, {l, f});
      assert {l, f} + {l, f} == {l, f};
    }
  }

  lemma Serve(s: Sys, l: ServerId, f: ServerId) returns (s': Sys)
    requires Live(s) && Pending(s, l, f)
    ensures Live(s') && Leads(s, s') && Within(s, s', {l, f}) && Done(s', l, f)
    ensures StillLeads(s.nodes[l], s'.nodes[l]) && NothingLeft(Cfg(s, l), s'.nodes[l]) && OtherTrackers(s.nodes[l], s'.nodes[l], f)
  {
    var mid := Touch(s, l, f);
    s' := CatchUp(mid, l, f);
    Then(s, mid, s');
    WithinThen(s, mid, s', {l, f}, {l, f});
    assert {l, f} + {l, f} == {l, f};
  }

  // ---------------------------------------------------------------------------
  // Every peer

  lemma PendingStays(s: Sys, s': Sys, l: ServerId, f: ServerId, o: ServerId)
    requires Within(s, s', {l, f}) && l in s.nodes && StillLeads(s.nodes[l], s'.nodes[l]) && OtherTrackers(s.nodes[l], s'.nodes[l], f)
    requires o != f && Pending(s, l, o)
    ensures Pending(s', l, o)
  {
  }

  lemma DoneStays(s: Sys, s': Sys, l: ServerId, f: ServerId, o: ServerId)
    requires Within(s, s', {l, f}) && l in s.nodes && StillLeads(s.nodes[l], s'.nodes[l]) && OtherTrackers(s.nodes[l], s'.nodes[l], f)
    requires o != f && Done(s, l, o)
    ensures Done(s', l, o)
  {
  }

  ghost predicate AllDone(s: Sys, l: ServerId, except: set<ServerId>) {
    forall f :: f in s.nodes && f != l && f !in except ==> Done(s, l, f)
  }

  ghost predicate AllPending(s: Sys, l: ServerId, todo: set<ServerId>) {
    forall f :: f in todo ==> Pending(s, l, f)
  }

  lemma ServedOne(s: Sys, s': Sys, l: ServerId, f: ServerId, todo: set<ServerId>)
    requires AllPending(s, l, todo) && AllDone(s, l, todo) && f in todo && Done(s', l, f)
    requires Within(s, s', {l, f}) && l in s.nodes && StillLeads(s.nodes[l], s'.nodes[l]) && OtherTrackers(s.nodes[l], s'.nodes[l], f)
    ensures AllPending(s', l, todo - {f}) && AllDone(s', l, todo - {f})
  {
    forall o | o in todo - {f} ensures Pending(s', l, o) {
      PendingStays(s, s', l, f, o);
    }
    forall o | o in s'.nodes && o != l && o !in todo - {f} ensures Done(s', l, o) {
      if o != f {
        DoneStays(s, s', l, f, o);
      }
    }
  }

  /** Everybody ends up with the leader's log, and the leader has committed what it can. */
  lemma {:induction false} ServeAll(s: Sys, l: ServerId, todo: set<ServerId>) returns (s': Sys)
    requires Live(s) && l in s.nodes && s.nodes[l].role == Leader && AllPending(s, l, todo) && AllDone(s, l, todo)
    requires todo != {} || NothingLeft(Cfg(s, l), s.nodes[l])
    ensures Live(s') && Leads(s, s') && Within(s, s', s.nodes.Keys) && AllDone(s', l, {})
    ensures StillLeads(s.nodes[l], s'.nodes[l]) && NothingLeft(Cfg(s, l), s'.nodes[l])
    decreases todo
  {
    if todo == {} {
      s' := s;
      Stay(s);
    } else {
      var f :| f in todo;
      assert Pending(s, l, f);
      var mid := Serve(s, l, f);
      ServedOne(s, mid, l, f, todo);
      assert Cfg(mid, l) == Cfg(s, l);
      s' := ServeAll(mid, l, todo - {f});
      Then(s, mid, s');
    }
  }

  lemma EverybodyIsMost(c: Configuration, ids: set<ServerId>)
    requires Voters(c) <= ids && Voters(c) != {}
    ensures MostVoters(c, ids)
  {
    assert ids * Voters(c) == Voters(c);
  }

  /** With everybody holding a log that ends in the leader's term, all of it is committed. */
  lemma AllCommitted(s: Sys, l: ServerId)
    requires Live(s) && l in s.nodes && AllDone(s, l, {}) && NothingLeft(Cfg(s, l), s.nodes[l])
    requires var me := s.nodes[l]; me.role == Leader && me.log != [] && me.log[|me.log| - 1].term == me.term
    ensures s.nodes[l].commitIndex == |s.nodes[l].log|
  {
    var me := s.nodes[l];
    Wires(s);
    CommitBounded(s, l);
    var holders := {l} + set p | p in me.matchIndex && me.matchIndex[p] >= |me.log|;
    forall v | v in Voters(s.servers) ensures v in holders {
      if v != l {
        assert Done(s, l, v);
      }
    }
    EverybodyIsMost(s.servers, holders);
    assert CanCommit(Cfg(s, l), me.term, me.log, me.matchIndex, |me.log|);
  }

  // ---------------------------------------------------------------------------
  // Telling everybody

  lemma SharedMatches(s: Sys, l: ServerId, f: ServerId)
    requires Done(s, l, f) && s.nodes[l].log != []
    ensures CanExchange(s, l, f, 0) && PreviousMatches(s.nodes[f].log, Request(s, l, f, 0))
  {
    var n := |s.nodes[l].log|;
    assert s.nodes[f].log[..n][n - 1] == s.nodes[l].log[..n][n - 1];
  }

  /** The peer is up to date and knows that all of the leader's log is committed. */
  ghost predicate Told(s: Sys, l: ServerId, f: ServerId) {
    Done(s, l, f) && |s.nodes[l].log| <= s.nodes[f].commitIndex
  }

  lemma Tell(s: Sys, l: ServerId, f: ServerId) returns (s': Sys)
    requires Live(s) && Done(s, l, f) && s.nodes[l].log != [] && s.nodes[l].commitIndex == |s.nodes[l].log|
    ensures Live(s') && Leads(s, s') && Within(s, s', {l, f}) && Told(s', l, f) && s'.nodes[l] == s.nodes[l]
  {
    SharedMatches(s, l, f);
    s' := AcceptedRound(s, l, f, 0);
    RequestQuotes(s, l, f, 0);
    CommitBounded(s', l);
  }

  ghost predicate AllTold(s: Sys, l: ServerId, except: set<ServerId>) {
    forall f :: f in s.nodes && f != l && f !in except ==> Told(s, l, f)
  }

  lemma ToldOne(s: Sys, s': Sys, l: ServerId, f: ServerId, todo: set<ServerId>)
    requires AllDone(s, l, {}) && AllTold(s, l, todo) && Told(s', l, f)
    requires l in s.nodes && Within(s, s', {l, f}) && s'.nodes[l] == s.nodes[l]
    ensures AllDone(s', l, {}) && AllTold(s', l, todo - {f})
  {
    forall o | o in s'.nodes && o != l ensures Done(s', l, o) && (o !in todo - {f} ==> Told(s', l, o)) {
      if o != f {
        assert Done(s, l, o) && s'.nodes[o] == s.nodes[o];
      }
    }
  }

  lemma {:induction false} TellAll(s: Sys, l: ServerId, todo: set<ServerId>) returns (s': Sys)
    requires Live(s) && l in s.nodes && AllDone(s, l, {}) && AllTold(s, l, todo) && todo <= s.nodes.Keys - {l}
    requires s.nodes[l].log != [] && s.nodes[l].commitIndex == |s.nodes[l].log|
    ensures Live(s') && Leads(s, s') && Within(s, s', s.nodes.Keys) && s'.nodes[l] == s.nodes[l] && AllTold(s', l, {})
    decreases todo
  {
    if todo == {} {
      s' := s;
      Stay(s);
    } else {
      var f :| f in todo;
      assert Done(s, l, f);
      var mid := Tell(s, l, f);
      ToldOne(s, mid, l, f, todo);
      s' := TellAll(mid, l, todo - {f});
      Then(s, mid, s');
    }
  }

  // ---------------------------------------------------------------------------
  // Applying

  lemma ReadIs(s: Sys, n: ServerId)
    requires Wired(s) && n in s.nodes
    ensures Enabled(s, ReadCommit(n)) && Act(s, ReadCommit(n)) == s.(target := s.target[n := s.nodes[n].commitIndex])
  {
  }

  lemma ApplyIs(s: Sys, n: ServerId)
    requires Wired(s) && n in s.nodes && s.nodes[n].applyIndex < s.target[n] && s.nodes[n].applyIndex < |s.nodes[n].log|
    ensures Enabled(s, ApplyNext(n)) && Act(s, ApplyNext(n)) == AfterApply(s, n)
  {
  }

  /** Server n, with only its apply index moved, to `upTo` at least. */
  ghost predicate Applied(s: Sys, s': Sys, n: ServerId, upTo: nat) {
    && Within(s, s', {n}) && n in s.nodes
    && s'.nodes[n] == s.nodes[n].(applyIndex := s'.nodes[n].applyIndex)
    && s.nodes[n].applyIndex <= s'.nodes[n].applyIndex && upTo <= s'.nodes[n].applyIndex
  }

  lemma ApplyOne(s: Sys, n: ServerId) returns (s': Sys)
    requires Live(s) && n in s.nodes && n in s.target && s.nodes[n].applyIndex < s.target[n] && s.nodes[n].applyIndex < |s.nodes[n].log|
    ensures Live(s') && Leads(s, s') && Applied(s, s', n, s.nodes[n].applyIndex + 1) && s'.target == s.target
    ensures s'.nodes[n].applyIndex == s.nodes[n].applyIndex + 1
  {
    Wires(s);
    ApplyIs(s, n);
    s' := Take(s, ApplyNext(n));
  }

  lemma {:induction false} ApplyLoop(s: Sys, n: ServerId, upTo: nat) returns (s': Sys)
    requires Live(s) && n in s.nodes && n in s.target && upTo <= s.target[n] && upTo <= |s.nodes[n].log|
    ensures Live(s') && Leads(s, s') && Applied(s, s', n, upTo)
    decreases upTo - s.nodes[n].applyIndex
  {
    if upTo <= s.nodes[n].applyIndex {
      s' := s;
      Stay(s);
    } else {
      var mid := ApplyOne(s, n);
      s' := ApplyLoop(mid, n, upTo);
      Then(s, mid, s');
    }
  }

  lemma ReadTarget(s: Sys, n: ServerId) returns (s': Sys)
    requires Live(s) && n in s.nodes
    ensures Live(s') && Leads(s, s') && Within(s, s', {}) && n in s'.target && s'.target[n] == s.nodes[n].commitIndex
  {
    Wires(s);
    ReadIs(s, n);
    s' := Take(s, ReadCommit(n));
  }

  lemma ApplyUpTo(s: Sys, n: ServerId, upTo: nat) returns (s': Sys)
    requires Live(s) && n in s.nodes && upTo <= s.nodes[n].commitIndex
    ensures Live(s') && Leads(s, s') && Applied(s, s', n, upTo)
  {
    CommitBounded(s, n);
    var mid := ReadTarget(s, n);
    s' := ApplyLoop(mid, n, upTo);
    Then(s, mid, s');
  }

  /** No server changed but for its apply index. */
  ghost predicate SameButApplied(s: Sys, s': Sys) {
    && Within(s, s', s.nodes.Keys)
    && forall n :: n in s.nodes ==> s'.nodes[n] == s.nodes[n].(applyIndex := s'.nodes[n].applyIndex)
                                    && s.nodes[n].applyIndex <= s'.nodes[n].applyIndex
  }

  lemma AppliedIsSame(s: Sys, s': Sys, n: ServerId, upTo: nat)
    requires Applied(s, s', n, upTo)
    ensures SameButApplied(s, s')
  {
  }

  lemma SameThen(s: Sys, mid: Sys, s': Sys)
    requires SameButApplied(s, mid) && SameButApplied(mid, s')
    ensures SameButApplied(s, s')
  {
  }

  ghost predicate MayApply(s: Sys, upTo: nat) {
    forall n :: n in s.nodes ==> upTo <= s.nodes[n].commitIndex
  }

  ghost predicate HaveApplied(s: Sys, upTo: nat, except: set<ServerId>) {
    forall n :: n in s.nodes && n !in except ==> upTo <= s.nodes[n].applyIndex
  }

  lemma OneMoreApplied(s: Sys, s': Sys, n: ServerId, upTo: nat, todo: set<ServerId>)
    requires Applied(s, s', n, upTo) && MayApply(s, upTo) && HaveApplied(s, upTo, todo)
    ensures SameButApplied(s, s') && MayApply(s', upTo) && HaveApplied(s', upTo, todo - {n})
  {
    AppliedIsSame(s, s', n, upTo);
  }

  lemma {:induction false} ApplyEverywhere(s: Sys, todo: set<ServerId>, upTo: nat) returns (s': Sys)
    requires Live(s) && todo <= s.nodes.Keys && MayApply(s, upTo) && HaveApplied(s, upTo, todo)
    ensures Live(s') && Leads(s, s') && SameButApplied(s, s') && HaveApplied(s', upTo, {})
    decreases todo
  {
    if todo == {} {
      s' := s;
      Stay(s);
    } else {
      var n :| n in todo;
      var mid := ApplyUpTo(s, n, upTo);
      OneMoreApplied(s, mid, n, upTo, todo);
      s' := ApplyEverywhere(mid, todo - {n}, upTo);
      Then(s, mid, s');
      SameThen(s, mid, s');
    }
  }
}
