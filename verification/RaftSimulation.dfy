/** Each block of RaftNode, seen from the server that runs it, as steps of AbstractRaft. */
module RaftSimulation {
  import opened LogTypes
  import opened Membership
  import opened RaftNode
  import opened RaftProtocol
  import opened AbstractRaft
  import opened AbstractSafety
  import opened RaftRefinement

  /** Server n goes from m to m' while history goes from abs to abs'. Committed entries stay. */
  ghost predicate NodeStep(abs: Abs, abs': Abs, n: ServerId, m: Node, m': Node, high: nat, high': nat, stable: nat, target: nat) {
    && OnlyBy(abs, abs', n)
    && NodeOk(abs', n, m', high', stable, target)
    && KeepsPrefix(m.log, m'.log, high) && high <= high'
  }

  ghost predicate KeepsPrefix(log: Log, log': Log, high: nat) {
    high <= |log| && high <= |log'| && log'[..high] == log[..high]
  }

  lemma EvolvesTrans(a: Abs, b: Abs, c: Abs)
    requires Evolves(a, b) && Evolves(b, c)
    ensures Evolves(a, c)
  {
    forall t, n | (t, n) in a.acked ensures Acked(a, t, n) <= Acked(c, t, n) {
      if Acked(a, t, n) > 0 { assert (t, n) in b.acked; }
    }
    forall t, n | (t, n) in c.acked && n in a.voters && Acked(c, t, n) > Acked(a, t, n) ensures a.term[n] <= t {
      if Acked(c, t, n) <= Acked(b, t, n) { assert (t, n) in b.acked; }
    }
  }

  lemma OnlyByTrans(a: Abs, b: Abs, c: Abs, n: ServerId)
    requires OnlyBy(a, b, n) && OnlyBy(b, c, n)
    ensures OnlyBy(a, c, n)
  {
    EvolvesTrans(a, b, c);
  }

  lemma StepTrans(a: Abs, b: Abs, c: Abs, n: ServerId, m0: Node, m1: Node, m2: Node,
                  h0: nat, h1: nat, h2: nat, stable: nat, target: nat)
    requires NodeStep(a, b, n, m0, m1, h0, h1, stable, target)
    requires NodeStep(b, c, n, m1, m2, h1, h2, stable, target)
    ensures NodeStep(a, c, n, m0, m2, h0, h2, stable, target)
  {
    OnlyByTrans(a, b, c, n);
    PrefixTrans(m0.log, m1.log, m2.log, h0, h1);
  }

  lemma PrefixTrans(l0: Log, l1: Log, l2: Log, h0: nat, h1: nat)
    requires KeepsPrefix(l0, l1, h0) && KeepsPrefix(l1, l2, h1) && h0 <= h1
    ensures KeepsPrefix(l0, l2, h0)
  {
    assert l2[..h0] == l2[..h1][..h0] == l1[..h1][..h0] == l1[..h0];
  }

  lemma CommittedPrefix(abs: Abs, p: Log, q: Log, bound: nat)
    requires Committed(abs, p, bound) && q <= p
    ensures Committed(abs, q, bound)
  {
    if q != [] {
      var t: nat, i: nat :| t <= bound && Covers(abs, p, t, i);
      assert Covers(abs, q, t, i);
    }
  }

  lemma OnlyBySelf(abs: Abs, n: ServerId)
    requires Shape(abs)
    ensures OnlyBy(abs, abs, n)
  {
  }

  /** A step that casts no vote. */
  lemma SameBallots(abs: Abs, abs': Abs, n: ServerId, m: Node, m': Node)
    requires Evolves(abs, abs') && abs'.ballots == abs.ballots && VoteMatches(abs, n, m)
    requires m'.term == m.term && m'.votedFor == m.votedFor && m'.votes == m.votes
    requires forall o :: o in abs.voters && o != n ==> abs'.term[o] == abs.term[o] && abs'.log[o] == abs.log[o]
    ensures VoteMatches(abs', n, m') && OnlyBy(abs, abs', n)
  {
  }

  // ---------------------------------------------------------------------------
  // Steps without history

  /** Roles, timers and hints may change freely as long as nobody becomes leader. */
  lemma QuietStep(abs: Abs, n: ServerId, m: Node, m': Node, high: nat, stable: nat, target: nat)
    requires Shape(abs) && NodeOk(abs, n, m, high, stable, target)
    requires m'.term == m.term && m'.votedFor == m.votedFor && m'.log == m.log
    requires m'.role != Leader || (m.role == Leader && m'.nextIndex == m.nextIndex && m'.matchIndex == m.matchIndex)
    requires m'.votes == m.votes || m'.votes == {}
    requires m'.commitIndex <= high
    ensures NodeStep(abs, abs, n, m, m', high, high, stable, target)
  {
    OnlyBySelf(abs, n);
  }

  lemma AdoptStep(abs: Abs, n: ServerId, m: Node, m': Node, high: nat, stable: nat, target: nat)
    requires Shape(abs) && BallotsSound(abs) && NodeOk(abs, n, m, high, stable, target)
    requires m'.term > m.term && m'.votedFor == "" && m'.log == m.log && m'.role == Follower
    requires m'.commitIndex == m.commitIndex && n != ""
    ensures NodeStep(abs, Bump(abs, n, m'.term), n, m, m', high, high, stable, target)
  {
    BumpEvolves(abs, n, m'.term);
    CommittedEvolves(abs, Bump(abs, n, m'.term), m.log[..high], m.term, m'.term);
  }

  // ---------------------------------------------------------------------------
  // Campaigning and voting

  lemma CampaignStep(abs: Abs, n: ServerId, m: Node, m': Node, high: nat, stable: nat, target: nat)
    requires Shape(abs) && BallotsSound(abs) && NodeOk(abs, n, m, high, stable, target) && n != ""
    requires m'.term == m.term + 1 && m'.votedFor == n && m'.votes == {n} && m'.log == m.log && m'.role == Candidate
    requires m'.commitIndex == m.commitIndex
    ensures NodeStep(abs, Campaign(abs, n), n, m, m', high, high, stable, target)
  {
    CampaignEvolves(abs, n);
    CommittedEvolves(abs, Campaign(abs, n), m.log[..high], m.term, m'.term);
  }

  lemma CastStep(abs: Abs, n: ServerId, m: Node, m': Node, c: ServerId, high: nat, stable: nat, target: nat)
    requires Shape(abs) && CanCast(abs, n, c) && NodeOk(abs, n, m, high, stable, target)
    requires c != "" && c != n
    requires m' == m.(votedFor := c, electionTicks := m'.electionTicks)
    ensures NodeStep(abs, Cast(abs, n, c), n, m, m', high, high, stable, target)
  {
    CastEvolves(abs, n, c);
    CommittedEvolves(abs, Cast(abs, n, c), m.log[..high], m.term, m.term);
    LeaderStays(abs, Cast(abs, n, c), n, m);
  }

  /** Adopting the request's term first, if it is higher. */
  lemma MaybeAdoptStep(abs: Abs, n: ServerId, m: Node, t: nat, high: nat, stable: nat, target: nat) returns (abs': Abs)
    requires Sound(abs) && NodeOk(abs, n, m, high, stable, target) && n != ""
    ensures Sound(abs')
    ensures NodeStep(abs, abs', n, m, if t > m.term then Adopt(m, t) else m, high, high, stable, target)
  {
    if t > m.term {
      abs' := Bump(abs, n, t);
      BumpSound(abs, n, t);
      AdoptStep(abs, n, m, Adopt(m, t), high, stable, target) by { Open(abs); }
    } else {
      abs' := abs;
      QuietStep(abs, n, m, m, high, stable, target);
    }
  }

  /** A vote request of the server's own term: the server votes now, has voted, or refuses. */
  lemma GrantStep(abs: Abs, n: ServerId, m: Node, c: ServerId, req: VoteReq, ticks: int,
                  high: nat, stable: nat, target: nat) returns (abs': Abs)
    requires Sound(abs) && NodeOk(abs, n, m, high, stable, target) && c != ""
    requires PacketOk(abs, VoteCall(c, n, req)) && !req.preVote && req.term == m.term
    requires m.votedFor == "" || m.votedFor == c
    requires LogOk(req, m.log)
    ensures Sound(abs')
    ensures NodeStep(abs, abs', n, m, m.(votedFor := c, electionTicks := ticks), high, high, stable, target)
    ensures (m.term, n) in abs'.ballots && abs'.ballots[(m.term, n)].candidate == c
  {
    var m' := m.(votedFor := c, electionTicks := ticks);
    if m.votedFor == c {
      abs' := abs;
      QuietStep(abs, n, m, m', high, stable, target);
    } else {
      assert CanCast(abs, n, c);
      abs' := Cast(abs, n, c);
      CastSound(abs, n, c);
      CastStep(abs, n, m, m', c, high, stable, target);
    }
  }

  /** A real vote request that passed the term and disruption checks. */
  lemma RealVoteStep(abs: Abs, n: ServerId, m: Node, c: ServerId, req: VoteReq, grant: bool, ticks: int,
                     high: nat, stable: nat, target: nat) returns (abs': Abs)
    requires Sound(abs) && NodeOk(abs, n, m, high, stable, target) && n != "" && c != ""
    requires PacketOk(abs, VoteCall(c, n, req)) && !req.preVote && req.term >= m.term
    requires var m1 := if req.term > m.term then Adopt(m, req.term) else m;
             grant ==> (m1.votedFor == "" || m1.votedFor == c) && LogOk(req, m1.log)
    ensures var m1 := if req.term > m.term then Adopt(m, req.term) else m;
            var m' := if grant then m1.(votedFor := c, electionTicks := ticks) else m1;
            Sound(abs') && NodeStep(abs, abs', n, m, m', high, high, stable, target)
    ensures grant ==> (req.term, n) in abs'.ballots && abs'.ballots[(req.term, n)].candidate == c
  {
    abs' := MaybeAdoptStep(abs, n, m, req.term, high, stable, target);
    if grant {
      var abs1 := abs';
      var m1 := if req.term > m.term then Adopt(m, req.term) else m;
      PacketStays(abs, abs1, VoteCall(c, n, req));
      abs' := GrantStep(abs1, n, m1, c, req, ticks, high, stable, target);
      StepTrans(abs, abs1, abs', n, m, m1, m1.(votedFor := c, electionTicks := ticks), high, high, high, stable, target);
    }
  }

  ghost predicate IgnoresVote(cfg: Config, m: Node, req: VoteReq) {
    req.preVote || req.term < m.term || (cfg.checkQuorum && !req.transfer && HeardFromLeader(m))
  }

  lemma HandleVoteCases(cfg: Config, m: Node, req: VoteReq, durable: bool, ticks: int)
    ensures var (m', resp) := HandleVote(cfg, m, req, durable, ticks);
            var m1 := if req.term > m.term then Adopt(m, req.term) else m;
            if IgnoresVote(cfg, m, req) then
              m' == m && (!req.preVote ==> !resp.granted)
            else if resp.granted then
              && m' == m1.(votedFor := req.candidate, electionTicks := ticks) && resp.term == req.term
              && (m1.votedFor == "" || m1.votedFor == req.candidate) && LogOk(req, m1.log)
            else
              m' == m1
  {
  }

  lemma VoteSim(abs: Abs, cfg: Config, n: ServerId, m: Node, req: VoteReq, durable: bool, ticks: int,
                high: nat, stable: nat, target: nat) returns (abs': Abs)
    requires Sound(abs) && NodeOk(abs, n, m, high, stable, target) && n != "" && req.candidate != ""
    requires PacketOk(abs, VoteCall(req.candidate, n, req))
    ensures Sound(abs')
    ensures NodeStep(abs, abs', n, m, HandleVote(cfg, m, req, durable, ticks).0, high, high, stable, target)
    ensures var resp := HandleVote(cfg, m, req, durable, ticks).1;
            !req.preVote && resp.granted ==>
              (resp.term, n) in abs'.ballots && abs'.ballots[(resp.term, n)].candidate == req.candidate
  {
    HandleVoteCases(cfg, m, req, durable, ticks);
    var (m', resp) := HandleVote(cfg, m, req, durable, ticks);
    if IgnoresVote(cfg, m, req) {
      abs' := abs;
      QuietStep(abs, n, m, m', high, stable, target);
    } else {
      abs' := RealVoteStep(abs, n, m, req.candidate, req, resp.granted, ticks, high, stable, target);
    }
  }
}
