/** From every state of a run a leader can be elected by ordinary timeouts: election timers run out, the
    server with the best log reaches the highest term, wins the pre-vote where there is one, and
    everybody it then asks grants the vote (pkg/raft/raft.go:725-939, 3226-3337). */
module RaftElecting {
  import opened LogTypes
  import opened Membership
  import opened RaftNode
  import opened RaftProtocol
  import opened AbstractRaft
  import opened RaftRefinement
  import opened RaftTheorems
  import opened RaftProgress
  import opened RaftRounds
  import opened RaftExchange

  // ---------------------------------------------------------------------------
  // Timers run out

  /** Server n with its election timer expired. */
  function Calmed(n: Node): Node {
    n.(electionTicks := 0)
  }

  lemma TimerIs(s: Sys, n: ServerId)
    requires Wired(s) && n in s.nodes
    ensures Enabled(s, SetTimer(n, 0)) && Act(s, SetTimer(n, 0)) == Updated(s, n, Calmed(s.nodes[n]), {})
  {
  }

  lemma Expire(s: Sys, n: ServerId) returns (s': Sys)
    requires Live(s) && n in s.nodes
    ensures Live(s') && Leads(s, s') && Within(s, s', {n}) && s'.nodes[n] == Calmed(s.nodes[n])
  {
    Wires(s);
    TimerIs(s, n);
    s' := Take(s, SetTimer(n, 0));
    UpdateWithin(s, n, Calmed(s.nodes[n]), {});
  }

  ghost predicate AllCalm(s: Sys, except: set<ServerId>) {
    forall n :: n in s.nodes && n !in except ==> s.nodes[n].electionTicks <= 0
  }

  lemma {:induction false} ExpireAll(s: Sys, todo: set<ServerId>) returns (s': Sys)
    requires Live(s) && todo <= s.nodes.Keys && AllCalm(s, todo)
    ensures Live(s') && Leads(s, s') && Within(s, s', s.nodes.Keys) && AllCalm(s', {})
    decreases todo
  {
    if todo == {} {
      s' := s;
      Stay(s);
    } else {
      var n :| n in todo;
      var mid := Expire(s, n);
      assert AllCalm(mid, todo - {n});
      s' := ExpireAll(mid, todo - {n});
      Then(s, mid, s');
    }
  }

  // ---------------------------------------------------------------------------
  // Whom to elect

  lemma {:induction false} BestLog(logs: map<ServerId, Log>, ids: set<ServerId>) returns (c: ServerId)
    requires ids != {} && ids <= logs.Keys
    ensures c in ids && forall v :: v in ids ==> UpToDate(logs[c], logs[v])
    decreases ids
  {
    c :| c in ids;
    var rest := ids - {c};
    assert forall v :: v in ids && v != c ==> v in rest;
    if rest != {} {
      var d := BestLog(logs, rest);
      if !UpToDate(logs[c], logs[d]) {
        c := d;
      }
    }
  }

  lemma {:induction false} HighestTerm(nodes: map<ServerId, Node>, ids: set<ServerId>) returns (h: ServerId)
    requires ids != {} && ids <= nodes.Keys
    ensures h in ids && forall v :: v in ids ==> nodes[v].term <= nodes[h].term
    decreases ids
  {
    h :| h in ids;
    var rest := ids - {h};
    assert forall v :: v in ids && v != h ==> v in rest;
    if rest != {} {
      var d := HighestTerm(nodes, rest);
      if nodes[h].term < nodes[d].term {
        h := d;
      }
    }
  }

  /** Everybody's timer has run out, and nobody has a better log than c or a term beyond t. */
  ghost predicate BestAmong(s: Sys, c: ServerId, t: nat) {
    && c in s.nodes && AllCalm(s, {})
    && forall v :: v in s.nodes ==> s.nodes[v].term <= t && UpToDate(s.nodes[c].log, s.nodes[v].log)
  }

  // ---------------------------------------------------------------------------
  // A timeout

  /** What a candidate, or a candidate-to-be, asks every other voter. */
  function Plea(c: ServerId, n: Node): VoteReq {
    VoteReq(n.term, c, |n.log|, LastTerm(n.log), false, false)
  }

  function PrePlea(c: ServerId, n: Node): VoteReq {
    VoteReq(n.term + 1, c, |n.log|, LastTerm(n.log), true, false)
  }

  ghost predicate HasAsked(s: Sys, c: ServerId, req: VoteReq) {
    forall v :: v in s.nodes && v != c ==> VoteCall(c, v, req) in s.net
  }

  lemma TimeoutIs(s: Sys, c: ServerId)
    requires Wired(s) && c in s.nodes
    ensures Enabled(s, Timeout(c))
    ensures var (m, req) := StartElection(Cfg(s, c), s.nodes[c], false, false);
            Act(s, Timeout(c)) == Updated(s, c, m, Broadcast(s, c, req))
  {
  }

  lemma BroadcastReaches(s: Sys, s': Sys, c: ServerId, req: VoteReq)
    requires Live(s) && s'.nodes.Keys == s.nodes.Keys && Broadcast(s, c, Some(req)) <= s'.net
    ensures HasAsked(s', c, req)
  {
    Wires(s);
    forall v | v in s'.nodes && v != c ensures VoteCall(c, v, req) in s'.net {
      assert VoteCall(c, v, req) in Broadcast(s, c, Some(req));
    }
  }

  lemma TimesOut(s: Sys, c: ServerId) returns (s': Sys, m: Node, req: Option<VoteReq>)
    requires Live(s) && c in s.nodes
    ensures Live(s') && Leads(s, s') && (m, req) == StartElection(Cfg(s, c), s.nodes[c], false, false)
    ensures Within(s, s', {c}) && s'.nodes[c] == m && Broadcast(s, c, req) <= s'.net
  {
    Wires(s);
    var r := StartElection(Cfg(s, c), s.nodes[c], false, false);
    m, req := r.0, r.1;
    TimeoutIs(s, c);
    s' := Take(s, Timeout(c));
    UpdateWithin(s, c, m, Broadcast(s, c, req));
  }

  lemma ManyVoters(s: Sys)
    requires Live(s)
    ensures |Voters(s.servers)| == |s.nodes.Keys|
  {
    Wires(s);
  }

  // ---------------------------------------------------------------------------
  // Campaigning without pre-votes

  /** Server c campaigns with only its own vote so far, and has asked everybody. */
  ghost predicate Asking(s: Sys, c: ServerId) {
    && c in s.nodes && s.nodes[c].role == Candidate && s.nodes[c].votes == {c} && HasAsked(s, c, Plea(c, s.nodes[c]))
  }

  lemma CampaignerIs(cfg: Config, n: Node, m: Node, req: Option<VoteReq>)
    requires |Voters(cfg.servers)| >= 2 && n.commitIndex <= |n.log| && Campaigns(cfg, n, false, (m, req))
    ensures m.role == Candidate && m.votes == {cfg.id} && m.term == n.term + 1 && m.log == n.log && req == Some(Plea(cfg.id, m))
  {
  }

  lemma PlainTimeout(cfg: Config, n: Node)
    requires n.commitIndex <= |n.log| && !cfg.preVote
    ensures Campaigns(cfg, n, false, StartElection(cfg, n, false, false))
  {
    ElectionExact(cfg, n, false, false);
  }

  lemma Campaign(s: Sys, c: ServerId) returns (s': Sys)
    requires Live(s) && c in s.nodes && |s.nodes.Keys| >= 2 && !s.preVote
    ensures Live(s') && Leads(s, s') && Within(s, s', {c}) && Asking(s', c)
    ensures s'.nodes[c].term == s.nodes[c].term + 1 && s'.nodes[c].log == s.nodes[c].log
  {
    var m: Node, req: Option<VoteReq>;
    s', m, req := TimesOut(s, c);
    ManyVoters(s);
    CommitBounded(s, c);
    PlainTimeout(Cfg(s, c), s.nodes[c]);
    CampaignerIs(Cfg(s, c), s.nodes[c], m, req);
    BroadcastReaches(s, s', c, Plea(c, m));
  }

  /** Campaigning again and again reaches any term. */
  lemma {:induction false} Raise(s: Sys, c: ServerId, t: nat) returns (s': Sys)
    requires Live(s) && c in s.nodes && |s.nodes.Keys| >= 2 && !s.preVote
    ensures Live(s') && Leads(s, s') && Within(s, s', {c}) && Asking(s', c)
    ensures t < s'.nodes[c].term && s'.nodes[c].log == s.nodes[c].log
    decreases t + 1 - s.nodes[c].term
  {
    var mid := Campaign(s, c);
    if t < mid.nodes[c].term {
      s' := mid;
    } else {
      s' := Raise(mid, c, t);
      Then(s, mid, s');
      WithinThen(s, mid, s', {c}, {c});
      assert {c} + {c} == {c};
    }
  }

  // ---------------------------------------------------------------------------
  // Pre-votes

  lemma VoteIs(s: Sys, p: Packet)
    requires Enabled(s, DeliverVote(p, true, 0))
    ensures var (m, resp) := HandleVote(Cfg(s, p.dst), s.nodes[p.dst], p.vote, true, 0);
            Act(s, DeliverVote(p, true, 0)) == Updated(s, p.dst, m, {VoteReply(p.dst, p.src, p.vote.preVote, resp)})
  {
  }

  lemma TakeVote(s: Sys, c: ServerId, v: ServerId, req: VoteReq) returns (s': Sys, m: Node, resp: VoteResp)
    requires Live(s) && v in s.nodes && VoteCall(c, v, req) in s.net
    ensures Live(s') && Leads(s, s') && (m, resp) == HandleVote(Cfg(s, v), s.nodes[v], req, true, 0)
    ensures Within(s, s', {v}) && s'.nodes[v] == m && VoteReply(v, c, req.preVote, resp) in s'.net
  {
    Wires(s);
    var r := HandleVote(Cfg(s, v), s.nodes[v], req, true, 0);
    m, resp := r.0, r.1;
    VoteIs(s, VoteCall(c, v, req));
    s' := Take(s, DeliverVote(VoteCall(c, v, req), true, 0));
    UpdateWithin(s, v, m, {VoteReply(v, c, req.preVote, resp)});
  }

  lemma PreReplyIs(s: Sys, v: ServerId, c: ServerId, resp: VoteResp)
    requires Enabled(s, DeliverVoteReply(VoteReply(v, c, true, resp)))
    ensures var (m, req) := OnPreVoteReply(Cfg(s, c), s.nodes[c], v, resp);
            Act(s, DeliverVoteReply(VoteReply(v, c, true, resp))) == Updated(s, c, m, Broadcast(s, c, req))
  {
  }

  lemma TakePreReply(s: Sys, c: ServerId, v: ServerId, resp: VoteResp) returns (s': Sys, m: Node, req: Option<VoteReq>)
    requires Live(s) && c in s.nodes && VoteReply(v, c, true, resp) in s.net
    ensures Live(s') && Leads(s, s') && (m, req) == OnPreVoteReply(Cfg(s, c), s.nodes[c], v, resp)
    ensures Within(s, s', {c}) && s'.nodes[c] == m && Broadcast(s, c, req) <= s'.net
  {
    Wires(s);
    var r := OnPreVoteReply(Cfg(s, c), s.nodes[c], v, resp);
    m, req := r.0, r.1;
    PreReplyIs(s, v, c, resp);
    s' := Take(s, DeliverVoteReply(VoteReply(v, c, true, resp)));
    UpdateWithin(s, c, m, Broadcast(s, c, req));
  }

  /** Server c is in a pre-vote round with only its own pre-vote so far, and has asked everybody. */
  ghost predicate PreAsking(s: Sys, c: ServerId) {
    && c in s.nodes && s.nodes[c].role == Candidate && s.nodes[c].inPreVote && s.nodes[c].preVotes == {c}
    && HasAsked(s, c, PrePlea(c, s.nodes[c]))
  }

  lemma PreTimeout(cfg: Config, n: Node, m: Node, req: Option<VoteReq>)
    requires |Voters(cfg.servers)| >= 2 && n.commitIndex <= |n.log| && cfg.preVote && (m, req) == StartElection(cfg, n, false, false)
    ensures m == n.(role := Candidate, inPreVote := true, preVotes := {cfg.id}) && req == Some(PrePlea(cfg.id, n))
  {
    ElectionExact(cfg, n, false, false);
  }

  lemma PreCampaign(s: Sys, c: ServerId) returns (s': Sys)
    requires Live(s) && c in s.nodes && |s.nodes.Keys| >= 2 && s.preVote
    ensures Live(s') && Leads(s, s') && Within(s, s', {c}) && PreAsking(s', c)
    ensures s'.nodes[c].term == s.nodes[c].term && s'.nodes[c].log == s.nodes[c].log
    ensures s'.nodes[c].electionTicks == s.nodes[c].electionTicks
  {
    var m: Node, req: Option<VoteReq>;
    s', m, req := TimesOut(s, c);
    ManyVoters(s);
    CommitBounded(s, c);
    PreTimeout(Cfg(s, c), s.nodes[c], m, req);
    BroadcastReaches(s, s', c, PrePlea(c, m));
  }

  /** A pre-vote answered from a later term takes the candidate-to-be into that term. */
  lemma LearnTerm(cfg: Config, n: Node, v: ServerId, resp: VoteResp, m: Node, req: Option<VoteReq>)
    requires n.commitIndex <= |n.log| && n.role == Candidate && n.inPreVote && resp.term > n.term
    requires (m, req) == OnPreVoteReply(cfg, n, v, resp)
    ensures m.term == resp.term && m.log == n.log && m.electionTicks == n.electionTicks
  {
    PreVoteCountedExact(cfg, n, v, resp);
  }

  lemma Learn(s: Sys, c: ServerId, v: ServerId) returns (s': Sys)
    requires Live(s) && c in s.nodes && v in s.nodes && |s.nodes.Keys| >= 2 && s.preVote && s.nodes[c].term < s.nodes[v].term
    ensures Live(s') && Leads(s, s') && Within(s, s', {c}) && s'.nodes[c].term == s.nodes[v].term
    ensures s'.nodes[c].log == s.nodes[c].log && s'.nodes[c].electionTicks == s.nodes[c].electionTicks
  {
    var s1 := PreCampaign(s, c);
    var req := PrePlea(c, s1.nodes[c]);
    assert VoteCall(c, v, req) in s1.net;
    var s2: Sys, m: Node, resp: VoteResp;
    s2, m, resp := TakeVote(s1, c, v, req);
    PreVoteGrantedIff(Cfg(s1, v), s1.nodes[v], req, true, 0);
    assert s2.nodes[c] == s1.nodes[c] && resp.term == s.nodes[v].term;
    CommitBounded(s2, c);
    var n: Node, none: Option<VoteReq>;
    s', n, none := TakePreReply(s2, c, v, resp);
    LearnTerm(Cfg(s2, c), s2.nodes[c], v, resp, n, none);
    Then(s, s1, s2);
    Then(s, s2, s');
  }

  /** Voter v has been asked for its pre-vote, is in no later term, has not heard from a leader lately and
      has no better log. */
  ghost predicate PreWilling(s: Sys, c: ServerId, v: ServerId) {
    && c in s.nodes && v in s.nodes && c != v
    && s.nodes[v].term <= s.nodes[c].term && s.nodes[v].electionTicks <= 0 && UpToDate(s.nodes[c].log, s.nodes[v].log)
    && VoteCall(c, v, PrePlea(c, s.nodes[c])) in s.net
  }

  lemma PreVote(s: Sys, c: ServerId, v: ServerId) returns (s': Sys, resp: VoteResp)
    requires Live(s) && PreWilling(s, c, v)
    ensures Live(s') && Leads(s, s') && Within(s, s', {}) && VoteReply(v, c, true, resp) in s'.net
    ensures resp.granted && resp.term <= s.nodes[c].term
  {
    var m: Node;
    s', m, resp := TakeVote(s, c, v, PrePlea(c, s.nodes[c]));
    PreVoteGrantedIff(Cfg(s, v), s.nodes[v], PrePlea(c, s.nodes[c]), true, 0);
  }

  /** One more pre-vote: a campaign if it makes a majority. */
  lemma PreCounted(cfg: Config, n: Node, v: ServerId, resp: VoteResp, m: Node, req: Option<VoteReq>)
    requires n.commitIndex <= |n.log| && n.role == Candidate && n.inPreVote && resp.granted && resp.term <= n.term
    requires |Voters(cfg.servers)| >= 2 && (m, req) == OnPreVoteReply(cfg, n, v, resp)
    ensures if MostVoters(cfg.servers, n.preVotes + {v}) then
              m.role == Candidate && m.votes == {cfg.id} && m.term == n.term + 1 && m.log == n.log && req == Some(Plea(cfg.id, m))
            else m == n.(preVotes := n.preVotes + {v})
  {
    PreVoteCountedExact(cfg, n, v, resp);
    if MostVoters(cfg.servers, n.preVotes + {v}) {
      CampaignerIs(cfg, n.(preVotes := n.preVotes + {v}), m, req);
    }
  }

  lemma GainPreVote(s: Sys, c: ServerId, v: ServerId) returns (s': Sys)
    requires Live(s) && PreWilling(s, c, v) && s.nodes[c].role == Candidate && s.nodes[c].inPreVote && |s.nodes.Keys| >= 2
    ensures Live(s') && Leads(s, s') && Within(s, s', {c})
    ensures var n, m := s.nodes[c], s'.nodes[c];
            if MostVoters(s.servers, n.preVotes + {v}) then Asking(s', c) && m.term == n.term + 1 && m.log == n.log
            else m == n.(preVotes := n.preVotes + {v})
  {
    var mid: Sys, resp: VoteResp;
    mid, resp := PreVote(s, c, v);
    assert mid.nodes[c] == s.nodes[c] && Cfg(mid, c) == Cfg(s, c);
    CommitBounded(s, c);
    ManyVoters(s);
    var m: Node, req: Option<VoteReq>;
    s', m, req := TakePreReply(mid, c, v, resp);
    PreCounted(Cfg(s, c), s.nodes[c], v, resp, m, req);
    if MostVoters(s.servers, s.nodes[c].preVotes + {v}) {
      BroadcastReaches(mid, s', c, Plea(c, m));
    }
    Then(s, mid, s');
  }

  /** Candidate-to-be c has the pre-votes of everybody but `todo`, who are willing. */
  ghost predicate PreGathering(s: Sys, c: ServerId, todo: set<ServerId>) {
    && c in s.nodes && s.nodes[c].role == Candidate && s.nodes[c].inPreVote && todo <= s.nodes.Keys
    && s.nodes.Keys - todo <= s.nodes[c].preVotes && !MostVoters(s.servers, s.nodes[c].preVotes)
    && (forall v :: v in todo ==> PreWilling(s, c, v))
  }

  lemma PreVotesGrow(s: Sys, s': Sys, c: ServerId, v: ServerId, todo: set<ServerId>)
    requires PreGathering(s, c, todo) && v in todo && Within(s, s', {c})
    requires s'.nodes[c] == s.nodes[c].(preVotes := s.nodes[c].preVotes + {v}) && !MostVoters(s.servers, s'.nodes[c].preVotes)
    ensures PreGathering(s', c, todo - {v})
  {
    forall o | o in todo - {v} ensures PreWilling(s', c, o) {
      assert PreWilling(s, c, o) && s'.nodes[o] == s.nodes[o];
      assert PrePlea(c, s'.nodes[c]) == PrePlea(c, s.nodes[c]);
    }
  }

  lemma AllVotesAreMost(c: Configuration, votes: set<ServerId>)
    requires Voters(c) <= votes && Voters(c) != {}
    ensures MostVoters(c, votes)
  {
    assert votes * Voters(c) == Voters(c);
  }

  lemma EverybodyVoted(s: Sys, c: ServerId, votes: set<ServerId>)
    requires Live(s) && c in s.nodes && s.nodes.Keys <= votes
    ensures MostVoters(s.servers, votes)
  {
    Wires(s);
    AllVotesAreMost(s.servers, votes);
  }

  lemma {:induction false} PreGather(s: Sys, c: ServerId, todo: set<ServerId>) returns (s': Sys)
    requires Live(s) && PreGathering(s, c, todo) && |s.nodes.Keys| >= 2
    ensures Live(s') && Leads(s, s') && Within(s, s', {c}) && Asking(s', c)
    ensures s'.nodes[c].term == s.nodes[c].term + 1 && s'.nodes[c].log == s.nodes[c].log
    decreases todo
  {
    if todo == {} {
      EverybodyVoted(s, c, s.nodes[c].preVotes);
      assert false;
    } else {
      var v :| v in todo;
      assert PreWilling(s, c, v);
      var mid := GainPreVote(s, c, v);
      if MostVoters(s.servers, s.nodes[c].preVotes + {v}) {
        s' := mid;
      } else {
        PreVotesGrow(s, mid, c, v, todo);
        s' := PreGather(mid, c, todo - {v});
        Then(s, mid, s');
        WithinThen(s, mid, s', {c}, {c});
        assert {c} + {c} == {c};
      }
    }
  }

  lemma OneIsNotMost(s: Sys, id: ServerId)
    requires Live(s) && |s.nodes.Keys| >= 2 && id in s.nodes
    ensures !MostVoters(s.servers, {id})
  {
    Wires(s);
    assert {id} * Voters(s.servers) == {id};
  }

  lemma StartPreGathering(s: Sys, s': Sys, c: ServerId)
    requires Live(s') && |s.nodes.Keys| >= 2 && c in s.nodes && BestAmong(s, c, s.nodes[c].term) && Within(s, s', {c}) && PreAsking(s', c)
    requires s'.nodes[c].log == s.nodes[c].log && s'.nodes[c].term == s.nodes[c].term
    ensures PreGathering(s', c, s.nodes.Keys - {c})
  {
    OneIsNotMost(s', c);
    assert s'.nodes.Keys - (s.nodes.Keys - {c}) == {c};
    forall v | v in s.nodes.Keys - {c} ensures PreWilling(s', c, v) {
      assert s'.nodes[v] == s.nodes[v];
    }
  }

  lemma WinPreVote(s: Sys, c: ServerId) returns (s': Sys)
    requires Live(s) && |s.nodes.Keys| >= 2 && s.preVote && c in s.nodes && BestAmong(s, c, s.nodes[c].term)
    ensures Live(s') && Leads(s, s') && Within(s, s', {c}) && Asking(s', c)
    ensures s'.nodes[c].term == s.nodes[c].term + 1 && s'.nodes[c].log == s.nodes[c].log
  {
    var mid := PreCampaign(s, c);
    StartPreGathering(s, mid, c);
    s' := PreGather(mid, c, s.nodes.Keys - {c});
    Then(s, mid, s');
    WithinThen(s, mid, s', {c}, {c});
    assert {c} + {c} == {c};
  }

  lemma LearnHighest(s: Sys, c: ServerId, h: ServerId) returns (s': Sys)
    requires Live(s) && |s.nodes.Keys| >= 2 && s.preVote && h in s.nodes && BestAmong(s, c, s.nodes[h].term)
    ensures Live(s') && Leads(s, s') && Within(s, s', {c}) && s'.nodes[c].term == s.nodes[h].term && s'.nodes[c].log == s.nodes[c].log
    ensures BestAmong(s', c, s'.nodes[c].term)
  {
    if s.nodes[c].term == s.nodes[h].term {
      s' := s;
      Stay(s);
    } else {
      s' := Learn(s, c, h);
      assert s'.nodes[c].electionTicks <= 0;
    }
  }

  // ---------------------------------------------------------------------------
  // One vote

  /** Voter v has been asked by c, is in an earlier term, has not heard from a leader lately and has no
      better log. */
  ghost predicate Willing(s: Sys, c: ServerId, v: ServerId) {
    && c in s.nodes && v in s.nodes && c != v
    && s.nodes[v].term < s.nodes[c].term && s.nodes[v].electionTicks <= 0 && UpToDate(s.nodes[c].log, s.nodes[v].log)
    && VoteCall(c, v, Plea(c, s.nodes[c])) in s.net
  }

  lemma Vote(s: Sys, c: ServerId, v: ServerId) returns (s': Sys)
    requires Live(s) && Willing(s, c, v)
    ensures Live(s') && Leads(s, s') && Within(s, s', {v}) && s'.nodes[v].term == s.nodes[c].term
    ensures VoteReply(v, c, false, VoteResp(s.nodes[c].term, true)) in s'.net
  {
    var req := Plea(c, s.nodes[c]);
    var m: Node, resp: VoteResp;
    s', m, resp := TakeVote(s, c, v, req);
    VoteGrantedIff(Cfg(s, v), s.nodes[v], req, true, 0);
  }

  /** One more vote: office if it makes a majority. */
  ghost predicate Counted(cfg: Config, n: Node, v: ServerId, m: Node) {
    var c := n.(votes := n.votes + {v});
    if MostVoters(cfg.servers, c.votes) then TookOffice(cfg, c, m) else m == c
  }

  lemma CountedIs(cfg: Config, n: Node, v: ServerId)
    requires n.role == Candidate && n.commitIndex <= |n.log|
    ensures Counted(cfg, n, v, OnVoteReply(cfg, n, v, VoteResp(n.term, true)))
  {
    VoteCountedExact(cfg, n, v, VoteResp(n.term, true));
  }

  lemma VoteReplyIs(s: Sys, v: ServerId, c: ServerId, resp: VoteResp)
    requires Enabled(s, DeliverVoteReply(VoteReply(v, c, false, resp)))
    ensures Act(s, DeliverVoteReply(VoteReply(v, c, false, resp)))
         == Updated(s, c, OnVoteReply(Cfg(s, c), s.nodes[c], v, resp), {})
  {
  }

  lemma TakeReply(s: Sys, c: ServerId, v: ServerId, resp: VoteResp) returns (s': Sys)
    requires Live(s) && c in s.nodes && VoteReply(v, c, false, resp) in s.net
    ensures Live(s') && Leads(s, s') && Within(s, s', {c}) && s'.nodes[c] == OnVoteReply(Cfg(s, c), s.nodes[c], v, resp)
  {
    Wires(s);
    VoteReplyIs(s, v, c, resp);
    s' := Take(s, DeliverVoteReply(VoteReply(v, c, false, resp)));
    UpdateWithin(s, c, s'.nodes[c], {});
  }

  lemma Count(s: Sys, c: ServerId, v: ServerId) returns (s': Sys)
    requires Live(s) && c in s.nodes && s.nodes[c].role == Candidate
    requires VoteReply(v, c, false, VoteResp(s.nodes[c].term, true)) in s.net
    ensures Live(s') && Leads(s, s') && Within(s, s', {c}) && Counted(Cfg(s, c), s.nodes[c], v, s'.nodes[c])
  {
    CommitBounded(s, c);
    CountedIs(Cfg(s, c), s.nodes[c], v);
    s' := TakeReply(s, c, v, VoteResp(s.nodes[c].term, true));
  }

  /** Asked, voter v grants the vote and c counts it. */
  lemma GainVote(s: Sys, c: ServerId, v: ServerId) returns (s': Sys)
    requires Live(s) && Willing(s, c, v) && s.nodes[c].role == Candidate
    ensures Live(s') && Leads(s, s') && Within(s, s', {c, v}) && s'.nodes[v].term == s.nodes[c].term
    ensures Counted(Cfg(s, c), s.nodes[c], v, s'.nodes[c])
  {
    var mid := Vote(s, c, v);
    assert mid.nodes[c] == s.nodes[c] && Cfg(mid, c) == Cfg(s, c);
    s' := Count(mid, c, v);
    Then(s, mid, s');
    WithinThen(s, mid, s', {v}, {c});
    assert {v} + {c} == {c, v};
  }

  // ---------------------------------------------------------------------------
  // Enough votes

  /** Server c leads, may take proposals, and nobody is in a later term. */
  ghost predicate InOffice(s: Sys, c: ServerId) {
    && c in s.nodes && s.nodes[c].role == Leader && !s.nodes[c].transferring
    && forall o :: o in s.nodes ==> s.nodes[o].term <= s.nodes[c].term
  }

  /** Candidate c has the votes of everybody but `todo`, who are willing. */
  ghost predicate Gathering(s: Sys, c: ServerId, todo: set<ServerId>) {
    && c in s.nodes && s.nodes[c].role == Candidate && todo <= s.nodes.Keys
    && s.nodes.Keys - todo <= s.nodes[c].votes && !MostVoters(s.servers, s.nodes[c].votes)
    && (forall v :: v in todo ==> Willing(s, c, v))
    && (forall o :: o in s.nodes ==> s.nodes[o].term <= s.nodes[c].term)
  }

  lemma VotesGrow(s: Sys, s': Sys, c: ServerId, v: ServerId, todo: set<ServerId>)
    requires Gathering(s, c, todo) && v in todo && Within(s, s', {c, v}) && s'.nodes[v].term == s.nodes[c].term
    requires s'.nodes[c] == s.nodes[c].(votes := s.nodes[c].votes + {v}) && !MostVoters(s.servers, s'.nodes[c].votes)
    ensures Gathering(s', c, todo - {v})
  {
    forall o | o in todo - {v} ensures Willing(s', c, o) {
      assert Willing(s, c, o) && s'.nodes[o] == s.nodes[o];
      assert Plea(c, s'.nodes[c]) == Plea(c, s.nodes[c]);
    }
  }

  lemma Elected(s: Sys, s': Sys, c: ServerId, v: ServerId, todo: set<ServerId>)
    requires Gathering(s, c, todo) && Within(s, s', {c, v}) && v in s.nodes && s'.nodes[v].term == s.nodes[c].term
    requires TookOffice(Cfg(s, c), s.nodes[c].(votes := s.nodes[c].votes + {v}), s'.nodes[c])
    ensures InOffice(s', c)
  {
  }

  lemma {:induction false} Gather(s: Sys, c: ServerId, todo: set<ServerId>) returns (s': Sys)
    requires Live(s) && Gathering(s, c, todo)
    ensures Live(s') && Leads(s, s') && s'.nodes.Keys == s.nodes.Keys && InOffice(s', c)
    decreases todo
  {
    if todo == {} {
      EverybodyVoted(s, c, s.nodes[c].votes);
      assert false;
    } else {
      var v :| v in todo;
      assert Willing(s, c, v);
      var mid := GainVote(s, c, v);
      if MostVoters(s.servers, s.nodes[c].votes + {v}) {
        Elected(s, mid, c, v, todo);
        s' := mid;
      } else {
        VotesGrow(s, mid, c, v, todo);
        s' := Gather(mid, c, todo - {v});
        Then(s, mid, s');
      }
    }
  }

  // ---------------------------------------------------------------------------
  // An election

  lemma BestIsWelcome(s: Sys, s': Sys, c: ServerId, t: nat, v: ServerId)
    requires BestAmong(s, c, t) && Within(s, s', {c}) && Asking(s', c) && s'.nodes[c].log == s.nodes[c].log
    requires t < s'.nodes[c].term && v in s.nodes && v != c
    ensures Willing(s', c, v)
  {
    assert s'.nodes[v] == s.nodes[v];
  }

  lemma StartGathering(s: Sys, s': Sys, c: ServerId, t: nat)
    requires Live(s') && |s.nodes.Keys| >= 2 && Within(s, s', {c}) && Asking(s', c) && s'.nodes[c].log == s.nodes[c].log
    requires t < s'.nodes[c].term && BestAmong(s, c, t)
    ensures Gathering(s', c, s.nodes.Keys - {c})
  {
    OneIsNotMost(s', c);
    assert s'.nodes.Keys - (s.nodes.Keys - {c}) == {c};
    forall v | v in s.nodes.Keys - {c} ensures Willing(s', c, v) {
      BestIsWelcome(s, s', c, t, v);
    }
  }

  /** The candidate has asked everybody, in a term beyond everybody's. */
  lemma Ask(s: Sys, c: ServerId, h: ServerId) returns (s': Sys)
    requires Live(s) && |s.nodes.Keys| >= 2 && h in s.nodes && BestAmong(s, c, s.nodes[h].term)
    ensures Live(s') && Leads(s, s') && Within(s, s', {c}) && Asking(s', c)
    ensures s'.nodes[c].log == s.nodes[c].log && s.nodes[h].term < s'.nodes[c].term
  {
    if s.preVote {
      var mid := LearnHighest(s, c, h);
      s' := WinPreVote(mid, c);
      Then(s, mid, s');
      WithinThen(s, mid, s', {c}, {c});
      assert {c} + {c} == {c};
    } else {
      s' := Raise(s, c, s.nodes[h].term);
    }
  }

  lemma Choose(s: Sys) returns (c: ServerId, h: ServerId)
    requires s.nodes.Keys != {} && AllCalm(s, {})
    ensures c in s.nodes && h in s.nodes && BestAmong(s, c, s.nodes[h].term)
  {
    var logs := map n | n in s.nodes :: s.nodes[n].log;
    c := BestLog(logs, s.nodes.Keys);
    h := HighestTerm(s.nodes, s.nodes.Keys);
    assert forall v :: v in s.nodes ==> logs[v] == s.nodes[v].log;
  }

  lemma AmongMany(s: Sys) returns (s': Sys, c: ServerId)
    requires Live(s) && |s.nodes.Keys| >= 2
    ensures Live(s') && Leads(s, s') && s'.nodes.Keys == s.nodes.Keys && InOffice(s', c)
  {
    var calm := ExpireAll(s, s.nodes.Keys);
    var h: ServerId;
    c, h := Choose(calm);
    var mid := Ask(calm, c, h);
    StartGathering(calm, mid, c, calm.nodes[h].term);
    s' := Gather(mid, c, calm.nodes.Keys - {c});
    Then(s, calm, mid);
    Then(s, mid, s');
  }

  lemma LonerIs(cfg: Config, n: Node, m: Node, req: Option<VoteReq>)
    requires |Voters(cfg.servers)| <= 1 && n.commitIndex <= |n.log| && (m, req) == StartElection(cfg, n, false, false)
    ensures m.role == Leader && !m.transferring
  {
    ElectionExact(cfg, n, false, false);
  }

  lemma OnlyServer(s: Sys) returns (c: ServerId)
    requires Live(s) && |s.nodes.Keys| < 2
    ensures s.nodes.Keys == {c} && |Voters(s.servers)| <= 1
  {
    Wires(s);
    c := s.servers[0].id;
    assert s.servers[0] in s.servers;
    OneVoter(s.nodes.Keys, c);
  }

  lemma Alone(s: Sys) returns (s': Sys, c: ServerId)
    requires Live(s) && |s.nodes.Keys| < 2
    ensures Live(s') && Leads(s, s') && s'.nodes.Keys == s.nodes.Keys && InOffice(s', c)
  {
    c := OnlyServer(s);
    CommitBounded(s, c);
    var m: Node, req: Option<VoteReq>;
    s', m, req := TimesOut(s, c);
    LonerIs(Cfg(s, c), s.nodes[c], m, req);
  }

  lemma Elect(s: Sys) returns (s': Sys, c: ServerId)
    requires Live(s)
    ensures Live(s') && Leads(s, s') && s'.nodes.Keys == s.nodes.Keys && InOffice(s', c)
  {
    if |s.nodes.Keys| >= 2 {
      s', c := AmongMany(s);
    } else {
      s', c := Alone(s);
    }
  }
}
