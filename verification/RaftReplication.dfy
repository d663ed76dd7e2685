/** Winning elections, replicating and committing, as steps of AbstractRaft. */
module RaftReplication {
  import opened LogTypes
  import opened Membership
  import opened RaftNode
  import opened RaftProtocol
  import opened AbstractRaft
  import opened AbstractSafety
  import opened RaftRefinement
  import opened RaftSimulation

  function Max(a: nat, b: nat): nat {
    if a < b then b else a
  }

  // ---------------------------------------------------------------------------
  // Committing

  /** A leader's log is its term's chronicle. */
  lemma LeaderLog(abs: Abs, n: ServerId, m: Node, high: nat, stable: nat, target: nat)
    requires Shape(abs) && LeadersHoldChronicle(abs) && NodeOk(abs, n, m, high, stable, target) && m.role == Leader
    ensures m.term in abs.chronicle && abs.chronicle[m.term] == m.log
  {
  }

  /** Acknowledgements from a quorum make an own-term entry committed. */
  lemma CommittableIsChosen(abs: Abs, cfg: Config, n: ServerId, m: Node, i: nat)
    requires Shape(abs) && cfg.id == n && abs.voters == Voters(cfg.servers)
    requires m.role == Leader && LeaderMatches(abs, n, m)
    requires m.term in abs.chronicle && abs.chronicle[m.term] == m.log
    requires Committable(cfg, m, i)
    ensures Chosen(abs, m.term, i)
  {
    var k := KnownHolders(cfg, m, i) * Voters(cfg.servers);
    assert k <= Holders(abs, m.term, i);
    SubsetSize(k, Holders(abs, m.term, i));
  }

  lemma ChosenLogCommitted(abs: Abs, m: Node, i: nat)
    requires m.term in abs.chronicle && abs.chronicle[m.term] == m.log && Chosen(abs, m.term, i)
    ensures i <= |m.log| && Committed(abs, m.log[..i], m.term)
  {
    assert Covers(abs, m.log[..i], m.term, i);
  }

  /** Raising a leader's commit index to a committed index. */
  lemma CommitStep(abs: Abs, n: ServerId, m: Node, i: nat, high: nat, stable: nat, target: nat)
    requires NodeOk(abs, n, m, high, stable, target)
    requires i <= |m.log| && Committed(abs, m.log[..i], m.term)
    ensures NodeStep(abs, abs, n, m, m.(commitIndex := i), high, Max(high, i), stable, target)
  {
    OnlyBySelf(abs, n);
  }

  lemma AdvanceStep(abs: Abs, cfg: Config, n: ServerId, m: Node, high: nat, stable: nat, target: nat) returns (high': nat)
    requires Shape(abs) && LeadersHoldChronicle(abs) && NodeOk(abs, n, m, high, stable, target)
    requires cfg.id == n && abs.voters == Voters(cfg.servers) && m.role == Leader
    ensures NodeStep(abs, abs, n, m, AdvanceCommit(cfg, m), high, high', stable, target)
  {
    var i := AdvanceCommit(cfg, m).commitIndex;
    if i == m.commitIndex {
      high' := high;
      QuietStep(abs, n, m, AdvanceCommit(cfg, m), high, stable, target);
    } else {
      LeaderLog(abs, n, m, high, stable, target);
      CommittableIsChosen(abs, cfg, n, m, i);
      ChosenLogCommitted(abs, m, i);
      high' := Max(high, i);
      CommitStep(abs, n, m, i, high, stable, target);
    }
  }

  // ---------------------------------------------------------------------------
  // Becoming leader

  /** The node with leadership bookkeeping in place and its first entry appended. */
  function Crowned(cfg: Config, m: Node): Node {
    Installed(cfg, m).(log := m.log + [Noop(m)])
  }

  ghost predicate Elected(abs: Abs, n: ServerId, m: Node) {
    m.votedFor == n && IsQuorum(abs, Supporters(abs, m.term, n))
  }

  /** A fresh leader's bookkeeping is sound whatever the history says about its peers. */
  lemma CrownedLeader(abs: Abs, cfg: Config, n: ServerId, m: Node)
    requires m.term in abs.chronicle && m.term in abs.leader && abs.leader[m.term] == n
    requires |m.log| + 1 <= Acked(abs, m.term, n) && cfg.id == n && abs.voters == Voters(cfg.servers) == Members(cfg.servers)
    ensures LeaderMatches(abs, n, Crowned(cfg, m))
  {
  }

  lemma CrownedCommit(abs: Abs, abs': Abs, cfg: Config, m: Node, high: nat, stable: nat, target: nat)
    requires Evolves(abs, abs') && CommitMatches(abs, m, high, stable, target)
    ensures CommitMatches(abs', Crowned(cfg, m), high, stable, target)
    ensures KeepsPrefix(m.log, Crowned(cfg, m).log, high)
  {
    assert Crowned(cfg, m).log[..high] == m.log[..high];
    CommittedEvolves(abs, abs', m.log[..high], m.term, m.term);
  }

  lemma WinStep(abs: Abs, cfg: Config, n: ServerId, m: Node, high: nat, stable: nat, target: nat)
    requires Shape(abs) && CanWin(abs, n, Noop(m)) && Evolves(abs, Win(abs, n, Noop(m)))
    requires NodeOk(abs, n, m, high, stable, target) && cfg.id == n && abs.voters == Voters(cfg.servers) == Members(cfg.servers)
    ensures NodeStep(abs, Win(abs, n, Noop(m)), n, m, Crowned(cfg, m), high, high, stable, target)
  {
    var abs' := Win(abs, n, Noop(m));
    CrownedLeader(abs', cfg, n, m);
    CrownedCommit(abs, abs', cfg, m, high, stable, target);
    SameBallots(abs, abs', n, m, Crowned(cfg, m));
  }

  /** A server re-elected in a term it already led goes on extending that term's log. */
  lemma ReelectStep(abs: Abs, cfg: Config, n: ServerId, m: Node, high: nat, stable: nat, target: nat)
    requires Shape(abs) && CanExtend(abs, n, [Noop(m)]) && Evolves(abs, Extend(abs, n, [Noop(m)]))
    requires NodeOk(abs, n, m, high, stable, target) && cfg.id == n && abs.voters == Voters(cfg.servers) == Members(cfg.servers)
    ensures NodeStep(abs, Extend(abs, n, [Noop(m)]), n, m, Crowned(cfg, m), high, high, stable, target)
  {
    var abs' := Extend(abs, n, [Noop(m)]);
    CrownedLeader(abs', cfg, n, m);
    CrownedCommit(abs, abs', cfg, m, high, stable, target);
    SameBallots(abs, abs', n, m, Crowned(cfg, m));
  }

  lemma CrownCases(abs: Abs, n: ServerId, m: Node)
    requires Shape(abs) && LeadersElected(abs) && Elected(abs, n, m)
    requires n in abs.voters && abs.term[n] == m.term && abs.log[n] == m.log
    ensures m.term in abs.chronicle ==> CanExtend(abs, n, [Noop(m)])
    ensures m.term !in abs.chronicle ==> CanWin(abs, n, Noop(m))
  {
    if m.term in abs.chronicle {
      ElectionSafety(abs, m.term, n, abs.leader[m.term]);
    }
  }

  lemma CrownStep(abs: Abs, cfg: Config, n: ServerId, m: Node, high: nat, stable: nat, target: nat) returns (abs': Abs)
    requires Sound(abs) && NodeOk(abs, n, m, high, stable, target) && Elected(abs, n, m)
    requires cfg.id == n && abs.voters == Voters(cfg.servers) == Members(cfg.servers)
    ensures Sound(abs') && NodeStep(abs, abs', n, m, Crowned(cfg, m), high, high, stable, target)
  {
    CrownCases(abs, n, m) by { Open(abs); }
    if m.term in abs.chronicle {
      abs' := Extend(abs, n, [Noop(m)]);
      ExtendSound(abs, n, [Noop(m)]);
      ReelectStep(abs, cfg, n, m, high, stable, target);
    } else {
      abs' := Win(abs, n, Noop(m));
      WinSound(abs, n, Noop(m));
      WinStep(abs, cfg, n, m, high, stable, target);
    }
  }

  lemma LeadStep(abs: Abs, cfg: Config, n: ServerId, m: Node, high: nat, stable: nat, target: nat)
    returns (abs': Abs, high': nat)
    requires Sound(abs) && NodeOk(abs, n, m, high, stable, target) && Elected(abs, n, m)
    requires cfg.id == n && abs.voters == Voters(cfg.servers) == Members(cfg.servers)
    ensures Sound(abs') && NodeStep(abs, abs', n, m, BecomeLeader(cfg, m), high, high', stable, target)
  {
    abs' := CrownStep(abs, cfg, n, m, high, stable, target);
    var l := Crowned(cfg, m);
    if QuorumSize(cfg.servers) == 1 {
      high' := AdvanceStep(abs', cfg, n, l, high, stable, target) by { Open(abs'); }
      StepTrans(abs, abs', abs', n, m, l, AdvanceCommit(cfg, l), high, high, high', stable, target);
    } else {
      high' := high;
    }
  }

  // ---------------------------------------------------------------------------
  // Campaigns

  /** What a vote request broadcast by n must say. */
  ghost predicate RequestOk(abs: Abs, n: ServerId, req: Option<VoteReq>) {
    req.Some? ==>
      && req.value.candidate == n
      && (!req.value.preVote ==>
            && (req.value.term, n) in abs.ballots && abs.ballots[(req.value.term, n)].candidate == n
            && |abs.ballots[(req.value.term, n)].log| == req.value.lastIndex
            && LastTerm(abs.ballots[(req.value.term, n)].log) == req.value.lastTerm)
  }

  lemma SelfQuorum(abs: Abs, cfg: Config, n: ServerId, m: Node)
    requires QuorumSize(cfg.servers) == 1 && abs.voters == Voters(cfg.servers) == Members(cfg.servers) && n in abs.voters
    requires m.votedFor == n && m.votes == {n} && m.votes <= Supporters(abs, m.term, n)
    ensures Elected(abs, n, m)
  {
    SubsetSize(m.votes, Supporters(abs, m.term, n));
  }

  lemma CampaignersRequest(abs: Abs, cfg: Config, n: ServerId, m: Node, transfer: bool)
    requires n in abs.term && n in abs.log && abs.term[n] == m.term && abs.log[n] == m.log && cfg.id == n
    ensures RequestOk(Campaign(abs, n), n, Some(VoteReq(m.term + 1, n, |m.log|, LastTerm(m.log), false, transfer)))
  {
  }

  lemma RealElectionStep(abs: Abs, cfg: Config, n: ServerId, m: Node, transfer: bool, high: nat, stable: nat, target: nat)
    returns (abs': Abs, high': nat)
    requires Sound(abs) && NodeOk(abs, n, m, high, stable, target) && n != ""
    requires cfg.id == n && abs.voters == Voters(cfg.servers) == Members(cfg.servers)
    ensures Sound(abs') && NodeStep(abs, abs', n, m, RealElection(cfg, m, transfer).0, high, high', stable, target)
    ensures RequestOk(abs', n, RealElection(cfg, m, transfer).1)
  {
    var c, abs1 := Campaigner(cfg, m), Campaign(abs, n);
    CampaignSound(abs, n);
    CampaignStep(abs, n, m, c, high, stable, target) by { Open(abs); }
    if QuorumSize(cfg.servers) == 1 {
      SelfQuorum(abs1, cfg, n, c);
      abs', high' := LeadStep(abs1, cfg, n, c, high, stable, target);
      StepTrans(abs, abs1, abs', n, m, c, BecomeLeader(cfg, c), high, high, high', stable, target);
    } else {
      abs', high' := abs1, high;
      CampaignersRequest(abs, cfg, n, m, transfer);
    }
  }

  lemma StartPreVoteStep(abs: Abs, cfg: Config, n: ServerId, m: Node, high: nat, stable: nat, target: nat)
    returns (abs': Abs, high': nat)
    requires Sound(abs) && NodeOk(abs, n, m, high, stable, target) && n != ""
    requires cfg.id == n && abs.voters == Voters(cfg.servers) == Members(cfg.servers)
    ensures Sound(abs') && NodeStep(abs, abs', n, m, StartPreVote(cfg, m).0, high, high', stable, target)
    ensures RequestOk(abs', n, StartPreVote(cfg, m).1)
  {
    var c := m.(role := Candidate, inPreVote := true, preVotes := {n});
    QuietStep(abs, n, m, c, high, stable, target);
    if QuorumSize(cfg.servers) == 1 {
      abs', high' := RealElectionStep(abs, cfg, n, c, false, high, stable, target);
      StepTrans(abs, abs, abs', n, m, c, RealElection(cfg, c, false).0, high, high, high', stable, target);
    } else {
      abs', high' := abs, high;
    }
  }

  lemma StartElectionStep(abs: Abs, cfg: Config, n: ServerId, m: Node, already: bool, transfer: bool,
                          high: nat, stable: nat, target: nat) returns (abs': Abs, high': nat)
    requires Sound(abs) && NodeOk(abs, n, m, high, stable, target) && n != ""
    requires cfg.id == n && abs.voters == Voters(cfg.servers) == Members(cfg.servers)
    ensures Sound(abs') && NodeStep(abs, abs', n, m, StartElection(cfg, m, already, transfer).0, high, high', stable, target)
    ensures RequestOk(abs', n, StartElection(cfg, m, already, transfer).1)
  {
    if cfg.preVote && !already && !transfer {
      abs', high' := StartPreVoteStep(abs, cfg, n, m, high, stable, target);
    } else {
      abs', high' := RealElectionStep(abs, cfg, n, m, transfer, high, stable, target);
    }
  }

  lemma PreVoteReplyStep(abs: Abs, cfg: Config, n: ServerId, m: Node, from: ServerId, resp: VoteResp,
                         high: nat, stable: nat, target: nat) returns (abs': Abs, high': nat)
    requires Sound(abs) && NodeOk(abs, n, m, high, stable, target) && n != ""
    requires cfg.id == n && abs.voters == Voters(cfg.servers) == Members(cfg.servers)
    ensures Sound(abs') && NodeStep(abs, abs', n, m, OnPreVoteReply(cfg, m, from, resp).0, high, high', stable, target)
    ensures RequestOk(abs', n, OnPreVoteReply(cfg, m, from, resp).1)
  {
    abs', high' := abs, high;
    var m' := OnPreVoteReply(cfg, m, from, resp).0;
    if m.inPreVote && m.role == Candidate && resp.term > m.term {
      abs' := Bump(abs, n, resp.term);
      BumpSound(abs, n, resp.term);
      AdoptStep(abs, n, m, m', high, stable, target) by { Open(abs); }
    } else if m.inPreVote && m.role == Candidate && resp.granted {
      var c := m.(preVotes := m.preVotes + {from});
      QuietStep(abs, n, m, c, high, stable, target);
      if VotesAccepted(Stable(cfg.servers), c.preVotes) {
        abs', high' := RealElectionStep(abs, cfg, n, c, false, high, stable, target);
        StepTrans(abs, abs, abs', n, m, c, m', high, high, high', stable, target);
      }
    } else {
      QuietStep(abs, n, m, m', high, stable, target);
    }
  }

  /** A granted vote of the candidate's own term really is a ballot for it. */
  lemma CountVote(abs: Abs, n: ServerId, m: Node, from: ServerId, high: nat, stable: nat, target: nat)
    requires Shape(abs) && BallotsSound(abs) && NodeOk(abs, n, m, high, stable, target)
    requires from in abs.voters && (m.term, from) in abs.ballots && abs.ballots[(m.term, from)].candidate == n
    requires m.role == Candidate
    ensures m.votedFor == n && m.votes + {from} <= Supporters(abs, m.term, n)
    ensures NodeStep(abs, abs, n, m, m.(votes := m.votes + {from}), high, high, stable, target)
  {
    assert BacksCandidate(abs, m.term, abs.ballots[(m.term, from)]);
    OnlyBySelf(abs, n);
  }

  lemma QuorumOfVotes(abs: Abs, cfg: Config, n: ServerId, m: Node)
    requires abs.voters == Voters(cfg.servers) == Members(cfg.servers) && m.votedFor == n && m.votes <= Supporters(abs, m.term, n)
    requires VotesAccepted(Stable(cfg.servers), m.votes)
    ensures Elected(abs, n, m)
  {
    var q := Supporters(abs, m.term, n);
    SubsetSize(m.votes * Voters(cfg.servers), q);
  }

  lemma VoteReplyStep(abs: Abs, cfg: Config, n: ServerId, m: Node, from: ServerId, resp: VoteResp,
                      high: nat, stable: nat, target: nat) returns (abs': Abs, high': nat)
    requires Sound(abs) && NodeOk(abs, n, m, high, stable, target) && n != ""
    requires cfg.id == n && abs.voters == Voters(cfg.servers) == Members(cfg.servers)
    requires PacketOk(abs, VoteReply(from, n, false, resp))
    ensures Sound(abs') && NodeStep(abs, abs', n, m, OnVoteReply(cfg, m, from, resp), high, high', stable, target)
  {
    abs', high' := abs, high;
    var m' := OnVoteReply(cfg, m, from, resp);
    if m.role == Candidate && resp.term > m.term {
      abs' := Bump(abs, n, resp.term);
      BumpSound(abs, n, resp.term);
      AdoptStep(abs, n, m, m', high, stable, target) by { Open(abs); }
    } else if m.role == Candidate && resp.term == m.term && resp.granted {
      var c := m.(votes := m.votes + {from});
      CountVote(abs, n, m, from, high, stable, target) by { Open(abs); }
      if VotesAccepted(Stable(cfg.servers), c.votes) {
        QuorumOfVotes(abs, cfg, n, c);
        abs', high' := LeadStep(abs, cfg, n, c, high, stable, target);
        StepTrans(abs, abs, abs', n, m, c, m', high, high, high', stable, target);
      }
    } else {
      QuietStep(abs, n, m, m', high, stable, target);
    }
  }

  // ---------------------------------------------------------------------------
  // Proposals

  lemma ExtendStep(abs: Abs, n: ServerId, m: Node, es: Log, high: nat, stable: nat, target: nat)
    requires Shape(abs) && CanExtend(abs, n, es) && Evolves(abs, Extend(abs, n, es))
    requires NodeOk(abs, n, m, high, stable, target) && m.role == Leader
    ensures NodeStep(abs, Extend(abs, n, es), n, m, m.(log := m.log + es), high, high, stable, target)
  {
    var abs', m' := Extend(abs, n, es), m.(log := m.log + es);
    GrownCommit(abs, abs', m, es, high, stable, target);
    GrownLeader(abs, abs', n, m, es);
    SameBallots(abs, abs', n, m, m');
  }

  lemma GrownCommit(abs: Abs, abs': Abs, m: Node, es: Log, high: nat, stable: nat, target: nat)
    requires Evolves(abs, abs') && CommitMatches(abs, m, high, stable, target)
    ensures CommitMatches(abs', m.(log := m.log + es), high, stable, target)
    ensures KeepsPrefix(m.log, m.log + es, high)
  {
    assert (m.log + es)[..high] == m.log[..high];
    CommittedEvolves(abs, abs', m.log[..high], m.term, m.term);
  }

  lemma GrownLeader(abs: Abs, abs': Abs, n: ServerId, m: Node, es: Log)
    requires Evolves(abs, abs') && LeaderMatches(abs, n, m) && m.role == Leader
    requires |m.log| + |es| <= Acked(abs', m.term, n)
    ensures LeaderMatches(abs', n, m.(log := m.log + es))
  {
    LeaderStays(abs, abs', n, m);
  }

  lemma AloneCommittable(abs: Abs, cfg: Config, n: ServerId, m: Node)
    requires cfg.id == n && abs.voters == Voters(cfg.servers) && n in abs.voters && QuorumSize(cfg.servers) == 1
    requires m.log != [] && LastTerm(m.log) == m.term
    ensures Committable(cfg, m, |m.log|)
  {
    SubsetSize({n}, KnownHolders(cfg, m, |m.log|) * Voters(cfg.servers));
  }

  lemma ProposeStep(abs: Abs, cfg: Config, n: ServerId, m: Node, batch: seq<seq<byte>>, high: nat, stable: nat, target: nat)
    returns (abs': Abs, high': nat)
    requires Sound(abs) && NodeOk(abs, n, m, high, stable, target)
    requires cfg.id == n && abs.voters == Voters(cfg.servers)
    ensures Sound(abs') && NodeStep(abs, abs', n, m, Propose(cfg, m, batch), high, high', stable, target)
  {
    if m.role != Leader || m.transferring || batch == [] {
      abs', high' := abs, high;
      QuietStep(abs, n, m, m, high, stable, target);
    } else {
      var es := NewEntries(m.term, |m.log|, batch);
      var l := m.(log := m.log + es);
      abs' := Extend(abs, n, es);
      ExtendSound(abs, n, es);
      ExtendStep(abs, n, m, es, high, stable, target);
      high' := high;
      if QuorumSize(cfg.servers) == 1 {
        high' := AloneStep(abs', cfg, n, l, high, stable, target) by { Open(abs'); }
        StepTrans(abs, abs', abs', n, m, l, l.(commitIndex := |l.log|), high, high, high', stable, target);
      }
    }
  }

  /** A single-voter leader commits its own last entry at once. */
  lemma AloneStep(abs: Abs, cfg: Config, n: ServerId, m: Node, high: nat, stable: nat, target: nat) returns (high': nat)
    requires Shape(abs) && LeadersHoldChronicle(abs) && NodeOk(abs, n, m, high, stable, target) && m.role == Leader
    requires cfg.id == n && abs.voters == Voters(cfg.servers) && QuorumSize(cfg.servers) == 1
    requires m.log != [] && LastTerm(m.log) == m.term
    ensures NodeStep(abs, abs, n, m, m.(commitIndex := |m.log|), high, high', stable, target)
  {
    LeaderLog(abs, n, m, high, stable, target);
    AloneCommittable(abs, cfg, n, m);
    CommittableIsChosen(abs, cfg, n, m, |m.log|);
    ChosenLogCommitted(abs, m, |m.log|);
    high' := Max(high, |m.log|);
    CommitStep(abs, n, m, |m.log|, high, stable, target);
  }

  // ---------------------------------------------------------------------------
  // Append requests and replies

  lemma SendStep(abs: Abs, cfg: Config, n: ServerId, m: Node, peer: ServerId, count: nat, high: nat, stable: nat, target: nat)
    requires Shape(abs) && LeadersHoldChronicle(abs) && NodeOk(abs, n, m, high, stable, target) && m.role == Leader
    requires cfg.id == n && peer in m.nextIndex && 1 <= m.nextIndex[peer] && m.nextIndex[peer] - 1 + count <= |m.log|
    ensures AppendOk(abs, n, BuildAppend(cfg, m, peer, count))
  {
    LeaderLog(abs, n, m, high, stable, target);
    assert m.log[..m.commitIndex] <= m.log[..high];
    CommittedPrefix(abs, m.log[..high], m.log[..m.commitIndex], m.term);
    var prev := m.nextIndex[peer] - 1;
    SliceQuotes(abs, n, m.term, prev, if prev > 0 then m.log[prev - 1].term else 0, count, m.commitIndex);
  }

  /** A slice of the chronicle with the term before it is a proper quotation. */
  lemma SliceQuotes(abs: Abs, n: ServerId, t: nat, prev: nat, prevTerm: nat, count: nat, commit: nat)
    requires t in abs.chronicle && t in abs.leader && abs.leader[t] == n
    requires prev + count <= |abs.chronicle[t]| && commit <= |abs.chronicle[t]|
    requires Committed(abs, abs.chronicle[t][..commit], t)
    requires prev > 0 ==> prevTerm == abs.chronicle[t][prev - 1].term
    ensures AppendOk(abs, n, AppendReq(t, n, prev, prevTerm, abs.chronicle[t][prev..prev + count], commit))
  {
    assert |abs.chronicle[t][prev..prev + count]| == count;
  }

  /** A refusal moves the next index down, but never below 1. */
  lemma BackedOffBounds(log: Log, next: nat, resp: AppendResp)
    requires 1 <= next
    ensures 1 <= BackedOff(log, next, resp) <= next
    ensures next > 1 ==> BackedOff(log, next, resp) < next
  {
  }

  /** New replication bookkeeping for one peer, within what that peer acknowledged. */
  lemma TrackStep(abs: Abs, n: ServerId, m: Node, m': Node, peer: ServerId, high: nat, stable: nat, target: nat)
    requires NodeOk(abs, n, m, high, stable, target) && m.role == Leader && peer in m.nextIndex
    requires m' == m.(matchIndex := m'.matchIndex, nextIndex := m.nextIndex[peer := AtLeast(m'.nextIndex, peer)])
    requires m'.matchIndex == m.matchIndex[peer := AtLeast(m'.matchIndex, peer)]
    requires AtLeast(m'.matchIndex, peer) <= Acked(abs, m.term, peer)
    requires 1 <= AtLeast(m'.nextIndex, peer) <= |m.log| + 1
    ensures NodeStep(abs, abs, n, m, m', high, high, stable, target)
  {
    OnlyBySelf(abs, n);
  }

  lemma AppendReplyStep(abs: Abs, cfg: Config, n: ServerId, m: Node, peer: ServerId, resp: AppendResp,
                        reqTerm: nat, lastSent: nat, high: nat, stable: nat, target: nat)
    returns (abs': Abs, high': nat)
    requires Sound(abs) && NodeOk(abs, n, m, high, stable, target) && n != ""
    requires cfg.id == n && abs.voters == Voters(cfg.servers)
    requires PacketOk(abs, AppendReply(peer, n, resp, reqTerm, lastSent))
    ensures Sound(abs') && NodeStep(abs, abs', n, m, OnAppendReply(cfg, m, peer, resp, reqTerm, lastSent), high, high', stable, target)
  {
    if m.role == Leader && resp.term > m.term {
      abs', high' := Bump(abs, n, resp.term), high;
      BumpSound(abs, n, resp.term);
      HigherTermReplyStep(abs, cfg, n, m, peer, resp, reqTerm, lastSent, high, stable, target) by { Open(abs); }
    } else {
      abs' := abs;
      high' := SameTermReplyStep(abs, cfg, n, m, peer, resp, reqTerm, lastSent, high, stable, target) by { Open(abs); }
    }
  }

  lemma HigherTermReplyStep(abs: Abs, cfg: Config, n: ServerId, m: Node, peer: ServerId, resp: AppendResp,
                            reqTerm: nat, lastSent: nat, high: nat, stable: nat, target: nat)
    requires Shape(abs) && BallotsSound(abs) && NodeOk(abs, n, m, high, stable, target) && n != ""
    requires m.role == Leader && resp.term > m.term
    ensures NodeStep(abs, Bump(abs, n, resp.term), n, m, OnAppendReply(cfg, m, peer, resp, reqTerm, lastSent), high, high, stable, target)
  {
    AdoptStep(abs, n, m, Adopt(m, resp.term).(leaderId := ""), high, stable, target);
  }

  lemma SameTermReplyStep(abs: Abs, cfg: Config, n: ServerId, m: Node, peer: ServerId, resp: AppendResp,
                          reqTerm: nat, lastSent: nat, high: nat, stable: nat, target: nat) returns (high': nat)
    requires Shape(abs) && AcksSound(abs) && LeadersHoldChronicle(abs) && NodeOk(abs, n, m, high, stable, target)
    requires cfg.id == n && abs.voters == Voters(cfg.servers) && (m.role == Leader ==> resp.term <= m.term)
    requires PacketOk(abs, AppendReply(peer, n, resp, reqTerm, lastSent))
    ensures NodeStep(abs, abs, n, m, OnAppendReply(cfg, m, peer, resp, reqTerm, lastSent), high, high', stable, target)
  {
    high' := high;
    if m.role != Leader || resp.term != m.term || reqTerm != m.term {
      QuietStep(abs, n, m, m, high, stable, target);
    } else if resp.success {
      high' := SuccessStep(abs, cfg, n, m, peer, resp, lastSent, high, stable, target);
    } else {
      RefusalStep(abs, cfg, n, m, peer, resp, lastSent, high, stable, target);
    }
  }

  lemma RefusalStep(abs: Abs, cfg: Config, n: ServerId, m: Node, peer: ServerId, resp: AppendResp, lastSent: nat,
                    high: nat, stable: nat, target: nat)
    requires NodeOk(abs, n, m, high, stable, target) && m.role == Leader && peer in m.nextIndex
    requires !resp.success && resp.term == m.term
    ensures NodeStep(abs, abs, n, m, OnAppendReply(cfg, m, peer, resp, m.term, lastSent), high, high, stable, target)
  {
    BackedOffBounds(m.log, m.nextIndex[peer], resp);
    TrackStep(abs, n, m, OnAppendReply(cfg, m, peer, resp, m.term, lastSent), peer, high, stable, target);
  }

  lemma SuccessStep(abs: Abs, cfg: Config, n: ServerId, m: Node, peer: ServerId, resp: AppendResp, lastSent: nat,
                    high: nat, stable: nat, target: nat) returns (high': nat)
    requires Shape(abs) && AcksSound(abs) && LeadersHoldChronicle(abs) && NodeOk(abs, n, m, high, stable, target)
    requires m.role == Leader && cfg.id == n && abs.voters == Voters(cfg.servers)
    requires resp.success && resp.term == m.term && peer in m.nextIndex && lastSent <= Acked(abs, m.term, peer)
    ensures NodeStep(abs, abs, n, m, OnAppendReply(cfg, m, peer, resp, m.term, lastSent), high, high', stable, target)
  {
    var m1 := Tracked(m, peer, lastSent);
    TrackedStep(abs, n, m, peer, lastSent, high, stable, target);
    high' := AdvanceStep(abs, cfg, n, m1, high, stable, target);
    StepTrans(abs, abs, abs, n, m, m1, AdvanceCommit(cfg, m1), high, high, high', stable, target);
  }

  lemma TrackedStep(abs: Abs, n: ServerId, m: Node, peer: ServerId, lastSent: nat, high: nat, stable: nat, target: nat)
    requires Shape(abs) && AcksSound(abs) && LeadersHoldChronicle(abs) && NodeOk(abs, n, m, high, stable, target)
    requires m.role == Leader && peer in m.nextIndex && lastSent <= Acked(abs, m.term, peer)
    ensures NodeStep(abs, abs, n, m, Tracked(m, peer, lastSent), high, high, stable, target)
  {
    LeaderLog(abs, n, m, high, stable, target);
    if lastSent == 0 {
      QuietStep(abs, n, m, m, high, stable, target);
    } else {
      TrackStep(abs, n, m, Tracked(m, peer, lastSent), peer, high, stable, target);
    }
  }
}
