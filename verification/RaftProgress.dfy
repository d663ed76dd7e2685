/** What a server must do, not only what it may do: exactly when it accepts an append request, grants
    a vote, commits an entry, takes office, takes a proposal and steps down, and what it then becomes
    (pkg/raft/raft.go:592-1740, 3090-3337). Conditions are spelled on the fields of the server and
    the message. */
module RaftProgress {
  import opened LogTypes
  import opened Membership
  import opened RaftNode

  // ---------------------------------------------------------------------------
  // Append requests

  /** The entry before the request's first one is in the log with the term the leader quotes. */
  ghost predicate PreviousMatches(log: Log, req: AppendReq) {
    req.prevIndex == 0 || (req.prevIndex <= |log| && log[req.prevIndex - 1].term == req.prevTerm)
  }

  /** No entry of the request has another term than the committed entry at its index. */
  ghost predicate SparesCommitted(log: Log, commitIndex: nat, req: AppendReq) {
    forall j :: 0 <= j < |req.entries| && req.prevIndex + j < |log| && req.prevIndex + j < commitIndex ==>
      log[req.prevIndex + j].term == req.entries[j].term
  }

  /** The log holds the first d entries of the request by term, and not the one after them. */
  ghost predicate AgreesFor(log: Log, req: AppendReq, d: nat) {
    && d <= |req.entries| && req.prevIndex + d <= |log|
    && (forall j :: 0 <= j < d ==> log[req.prevIndex + j].term == req.entries[j].term)
    && (d < |req.entries| && req.prevIndex + d < |log| ==> log[req.prevIndex + d].term != req.entries[d].term)
  }

  lemma FirstNewAgrees(log: Log, req: AppendReq)
    requires Numbered(req.entries, req.prevIndex + 1) && PreviousMatches(log, req)
    ensures AgreesFor(log, req, FirstNew(log, req.entries))
  {
    var d := FirstNew(log, req.entries);
    assert d > 0 ==> Present(log, req.entries[d - 1]);
    forall j | 0 <= j < d ensures log[req.prevIndex + j].term == req.entries[j].term {
      assert Present(log, req.entries[j]);
    }
  }

  lemma SparedFrom(log: Log, commitIndex: nat, req: AppendReq, d: nat)
    requires AgreesFor(log, req, d)
    ensures SparesCommitted(log, commitIndex, req) <==>
              d == |req.entries| || req.prevIndex + d == |log| || req.prevIndex + d >= commitIndex
  {
  }

  /** The log after a request that agrees with it for d entries: it keeps everything when it holds
      them all, and otherwise gives way to the request from the first difference on. */
  ghost function Overwritten(log: Log, req: AppendReq, d: nat): Log
    requires AgreesFor(log, req, d)
  {
    if d == |req.entries| then log else log[..req.prevIndex + d] + req.entries[d..]
  }

  lemma RestStored(m: Node, req: AppendReq, d: nat, refused: AppendResp)
    requires Numbered(req.entries, req.prevIndex + 1) && AgreesFor(m.log, req, d) && d < |req.entries| && !refused.success
    ensures var r := StoreRest(m, req, req.entries[d..], refused);
            if req.prevIndex + d < |m.log| && req.prevIndex + d < m.commitIndex then
              r == (m, refused.(index := m.commitIndex + 1))
            else
              r == Stored(m.(log := Overwritten(m.log, req, d)), req)
  {
    var rest := req.entries[d..];
    assert rest[0].index == req.prevIndex + d + 1;
    assert Consecutive(rest, req.prevIndex + d + 1);
    assert m.log[..|m.log|] == m.log;
  }

  /** The node and the answer for a request that passes the check on the previous entry. */
  ghost predicate StoredAs(m: Node, req: AppendReq, d: nat, refused: AppendResp, r: (Node, AppendResp))
    requires AgreesFor(m.log, req, d)
  {
    if SparesCommitted(m.log, m.commitIndex, req) then
      var log' := Overwritten(m.log, req, d);
      var last := req.prevIndex + |req.entries|;
      && r.0 == m.(log := log', commitIndex := if req.leaderCommit > m.commitIndex then Min(req.leaderCommit, last) else m.commitIndex)
      && r.1 == AppendResp(m.term, true, |log'|, 0)
    else
      r == (m, refused.(index := m.commitIndex + 1))
  }

  lemma LastIsCovered(req: AppendReq)
    requires Numbered(req.entries, req.prevIndex + 1)
    ensures LastCovered(req) == req.prevIndex + |req.entries|
  {
  }

  lemma NothingNewStored(m: Node, req: AppendReq, refused: AppendResp)
    requires Numbered(req.entries, req.prevIndex + 1) && AgreesFor(m.log, req, |req.entries|)
    ensures StoredAs(m, req, |req.entries|, refused, Stored(m, req))
  {
    LastIsCovered(req);
  }

  lemma SomeNewStored(m: Node, req: AppendReq, d: nat, refused: AppendResp)
    requires Numbered(req.entries, req.prevIndex + 1) && AgreesFor(m.log, req, d) && d < |req.entries| && !refused.success
    ensures StoredAs(m, req, d, refused, StoreRest(m, req, req.entries[d..], refused))
  {
    LastIsCovered(req);
    RestStored(m, req, d, refused);
    SparedFrom(m.log, m.commitIndex, req, d);
  }

  lemma StoreExact(m: Node, req: AppendReq, refused: AppendResp)
    requires Numbered(req.entries, req.prevIndex + 1) && PreviousMatches(m.log, req) && !refused.success
    ensures AgreesFor(m.log, req, FirstNew(m.log, req.entries))
    ensures StoredAs(m, req, FirstNew(m.log, req.entries), refused, Store(m, req, refused))
  {
    var d := FirstNew(m.log, req.entries);
    FirstNewAgrees(m.log, req);
    if d == |req.entries| {
      NothingNewStored(m, req, refused);
    } else {
      SomeNewStored(m, req, d, refused);
    }
  }

  /** Contact from a leader of this term or a later one, whether or not its entries are accepted: the
      server is in that term, follows unless it leads the very term, and restarts its timer. */
  ghost predicate Heeded(cfg: Config, n: Node, req: AppendReq, ticks: int, m: Node) {
    && m.term == req.term && m.leaderId == req.leaderId && m.electionTicks == ticks
    && m.votedFor == (if req.term > n.term then "" else n.votedFor)
    && m.role == (if req.term == n.term && n.role == Leader then Leader else Follower)
    && m.transferring == (n.transferring && req.leaderId == cfg.id)
    && m.applyIndex == n.applyIndex && m.inPreVote == n.inPreVote && m.preVotes == n.preVotes && m.votes == n.votes
    && m.nextIndex == n.nextIndex && m.matchIndex == n.matchIndex
  }

  lemma AppendIsStore(cfg: Config, n: Node, req: AppendReq, ticks: int) returns (m: Node)
    requires req.term >= n.term
    ensures Heeded(cfg, n, req, ticks, m) && m.log == n.log && m.commitIndex == n.commitIndex
    ensures HandleAppend(cfg, n, req, ticks)
         == if PreviousMatches(n.log, req) then Store(m, req, AppendResp(n.term, false, 0, 0))
            else CheckAndStore(m, req, AppendResp(n.term, false, 0, 0))
  {
    m := Heed(cfg, n, req, ticks);
  }

  /** A server accepts a numbered append request exactly when the request is not of an older term, the
      previous entry matches and no committed entry would be overwritten. */
  lemma AppendAcceptedIff(cfg: Config, n: Node, req: AppendReq, ticks: int)
    requires Numbered(req.entries, req.prevIndex + 1)
    ensures HandleAppend(cfg, n, req, ticks).1.success <==>
              req.term >= n.term && PreviousMatches(n.log, req) && SparesCommitted(n.log, n.commitIndex, req)
  {
    if req.term >= n.term {
      var m := AppendIsStore(cfg, n, req, ticks);
      if PreviousMatches(n.log, req) {
        StoreExact(m, req, AppendResp(n.term, false, 0, 0));
      }
    }
  }

  ghost predicate AcceptedAs(cfg: Config, n: Node, req: AppendReq, ticks: int, d: nat, m: Node, resp: AppendResp) {
    && AgreesFor(n.log, req, d) && Heeded(cfg, n, req, ticks, m)
    && m.log == Overwritten(n.log, req, d)
    && m.commitIndex == (if req.leaderCommit > n.commitIndex then Min(req.leaderCommit, req.prevIndex + |req.entries|) else n.commitIndex)
    && resp == AppendResp(req.term, true, |m.log|, 0)
  }

  /** What accepting does: the log keeps everything up to the previous entry and as far as the request
      agrees with it, holds the rest of the request behind that, and is cut only where it differs; the
      commit index follows the leader's as far as the request reaches. */
  lemma AcceptedAppend(cfg: Config, n: Node, req: AppendReq, ticks: int) returns (d: nat)
    requires Numbered(req.entries, req.prevIndex + 1) && HandleAppend(cfg, n, req, ticks).1.success
    ensures var (m, resp) := HandleAppend(cfg, n, req, ticks);
            AcceptedAs(cfg, n, req, ticks, d, m, resp)
  {
    AppendAcceptedIff(cfg, n, req, ticks);
    var m := AppendIsStore(cfg, n, req, ticks);
    StoreExact(m, req, AppendResp(n.term, false, 0, 0));
    d := FirstNew(n.log, req.entries);
  }

  lemma OverwrittenHolds(log: Log, req: AppendReq, d: nat, j: nat)
    requires AgreesFor(log, req, d) && j < |req.entries|
    ensures HoldsAt(log, Overwritten(log, req, d), req, j)
  {
    var log' := Overwritten(log, req, d);
    if d < |req.entries| {
      assert log'[..req.prevIndex] == log[..req.prevIndex];
      if j < d {
        assert log'[req.prevIndex + j] == log[req.prevIndex + j];
      } else {
        assert log'[req.prevIndex + j] == req.entries[d..][j - d];
      }
    }
  }

  /** Entry j of the request stands at its own index, by term, and as it was sent where the old log did
      not hold it; what lay before the request is untouched. */
  ghost predicate HoldsAt(log: Log, log': Log, req: AppendReq, j: nat)
    requires j < |req.entries|
  {
    && req.prevIndex + j < |log'| && log'[req.prevIndex + j].term == req.entries[j].term
    && (req.prevIndex + j >= |log| || log[req.prevIndex + j].term != req.entries[j].term ==>
          log'[req.prevIndex + j] == req.entries[j])
    && req.prevIndex <= |log| && log'[..req.prevIndex] == log[..req.prevIndex]
  }

  /** So the new log holds every entry of an accepted request. */
  lemma AcceptedIsHeld(cfg: Config, n: Node, req: AppendReq, ticks: int, j: nat)
    requires Numbered(req.entries, req.prevIndex + 1) && HandleAppend(cfg, n, req, ticks).1.success && j < |req.entries|
    ensures HoldsAt(n.log, HandleAppend(cfg, n, req, ticks).0.log, req, j)
  {
    var d := AcceptedAppend(cfg, n, req, ticks);
    OverwrittenHolds(n.log, req, d, j);
  }

  /** A refusal changes neither log nor commit index, and says why: an older term, a log too short, the
      term at the previous index, or a commit index in the way. */
  lemma RefusedAppend(cfg: Config, n: Node, req: AppendReq, ticks: int)
    requires Numbered(req.entries, req.prevIndex + 1) && !HandleAppend(cfg, n, req, ticks).1.success
    ensures var (m, resp) := HandleAppend(cfg, n, req, ticks);
            && m.log == n.log && m.commitIndex == n.commitIndex && resp.term == n.term
            && (req.term < n.term ==> m == n && resp.index == 0 && resp.conflictTerm == 0)
            && (req.term >= n.term ==>
                  && Heeded(cfg, n, req, ticks, m)
                  && (req.prevIndex > |n.log| ==> resp.index == |n.log| + 1 && resp.conflictTerm == 0)
                  && (0 < req.prevIndex <= |n.log| && n.log[req.prevIndex - 1].term != req.prevTerm ==>
                        1 <= resp.index <= req.prevIndex && resp.conflictTerm == n.log[req.prevIndex - 1].term)
                  && (PreviousMatches(n.log, req) ==> resp.index == n.commitIndex + 1 && resp.conflictTerm == 0))
  {
    AppendAcceptedIff(cfg, n, req, ticks);
    if req.term >= n.term {
      var m := AppendIsStore(cfg, n, req, ticks);
      if PreviousMatches(n.log, req) {
        StoreExact(m, req, AppendResp(n.term, false, 0, 0));
      }
    }
  }

  // ---------------------------------------------------------------------------
  // Votes

  /** The candidate's last entry has a later term than the voter's, or the same and no lower index. */
  ghost predicate CandidateUpToDate(req: VoteReq, log: Log) {
    var ownTerm := if log == [] then 0 else log[|log| - 1].term;
    req.lastTerm > ownTerm || (req.lastTerm == ownTerm && req.lastIndex >= |log|)
  }

  /** A real vote is granted exactly to a candidate of a current term, not disrupting a live leader,
      to whom the vote of that term is still free, with a log no worse than the voter's, once the
      vote is on disk. */
  ghost predicate DeservesVote(cfg: Config, n: Node, req: VoteReq) {
    && req.term >= n.term
    && !(cfg.checkQuorum && !req.transfer && n.electionTicks > 0 && n.leaderId != "")
    && (req.term > n.term || n.votedFor == "" || n.votedFor == req.candidate)
    && CandidateUpToDate(req, n.log)
  }

  lemma VoteGrantedIff(cfg: Config, n: Node, req: VoteReq, durable: bool, ticks: int)
    requires !req.preVote
    ensures var (m, resp) := HandleVote(cfg, n, req, durable, ticks);
            && (resp.granted <==> DeservesVote(cfg, n, req) && durable)
            && (resp.granted ==>
                  && resp.term == req.term
                  && m == n.(term := req.term, votedFor := req.candidate, electionTicks := ticks,
                             role := if req.term > n.term then Follower else n.role))
  {
  }

  /** A refused vote leaves the server alone, except that a request of a later term which is not turned
      away for a live leader takes it into that term, following and with its vote free. */
  lemma VoteRefused(cfg: Config, n: Node, req: VoteReq, durable: bool, ticks: int)
    requires !req.preVote && !HandleVote(cfg, n, req, durable, ticks).1.granted
    ensures HandleVote(cfg, n, req, durable, ticks).0
         == if req.term > n.term && !(cfg.checkQuorum && !req.transfer && n.electionTicks > 0 && n.leaderId != "") then
              n.(term := req.term, role := Follower, votedFor := "")
            else n
    ensures HandleVote(cfg, n, req, durable, ticks).1.term == if DeservesVote(cfg, n, req) then req.term else n.term
  {
  }

  lemma PreVoteGrantedIff(cfg: Config, n: Node, req: VoteReq, durable: bool, ticks: int)
    requires req.preVote
    ensures var (m, resp) := HandleVote(cfg, n, req, durable, ticks);
            && m == n && resp.term == n.term
            && (resp.granted <==> req.term >= n.term && !(n.electionTicks > 0 && n.leaderId != "") && CandidateUpToDate(req, n.log))
  {
  }

  // ---------------------------------------------------------------------------
  // Committing

  /** More than half of the voters are in the set. */
  ghost predicate MostVoters(c: Configuration, ids: set<ServerId>) {
    2 * |ids * Voters(c)| > |Voters(c)|
  }

  lemma MostIsQuorum(c: Configuration, ids: set<ServerId>)
    ensures MostVoters(c, ids) <==> |ids * Voters(c)| >= QuorumSize(c)
  {
  }

  /** Index idx holds an entry of the leader's term, and most voters hold it: the leader and the peers
      matched that far. */
  ghost predicate CanCommit(cfg: Config, term: nat, log: Log, matchIndex: map<ServerId, nat>, idx: nat) {
    && 1 <= idx <= |log| && log[idx - 1].term == term
    && MostVoters(cfg.servers, {cfg.id} + set p | p in matchIndex && matchIndex[p] >= idx)
  }

  /** c is where the commit index belongs, given where it was: at the highest index that can be
      committed, or where it was if none above it can. */
  ghost predicate RightCommit(cfg: Config, term: nat, log: Log, matchIndex: map<ServerId, nat>, was: nat, c: nat) {
    && was <= c
    && (forall idx :: was < idx <= |log| && CanCommit(cfg, term, log, matchIndex, idx) ==> idx <= c)
    && (c == was || CanCommit(cfg, term, log, matchIndex, c))
  }

  lemma CanCommitIs(cfg: Config, n: Node, idx: nat)
    ensures CanCommit(cfg, n.term, n.log, n.matchIndex, idx) <==> Committable(cfg, n, idx)
  {
    MostIsQuorum(cfg.servers, {cfg.id} + set p | p in n.matchIndex && n.matchIndex[p] >= idx);
  }

  /** There is only one right commit index. */
  lemma RightCommitUnique(cfg: Config, term: nat, log: Log, matchIndex: map<ServerId, nat>, was: nat, c: nat, c': nat)
    requires RightCommit(cfg, term, log, matchIndex, was, c) && RightCommit(cfg, term, log, matchIndex, was, c')
    ensures c == c'
  {
  }

  /** The leader's commit index moves to the right place and nothing else changes. */
  lemma CommitExact(cfg: Config, n: Node)
    ensures var m := AdvanceCommit(cfg, n);
            && RightCommit(cfg, n.term, n.log, n.matchIndex, n.commitIndex, m.commitIndex)
            && m == n.(commitIndex := m.commitIndex)
  {
    forall idx ensures CanCommit(cfg, n.term, n.log, n.matchIndex, idx) <==> Committable(cfg, n, idx) {
      CanCommitIs(cfg, n, idx);
    }
  }

  /** A leader's trackers after a success for entries up to lastSent: what the peer is known to hold
      never falls, and sending goes on behind it. */
  ghost predicate Acknowledged(n: Node, m: Node, peer: ServerId, lastSent: nat) {
    var known := if peer in n.matchIndex then n.matchIndex[peer] else 0;
    if lastSent == 0 then
      m.matchIndex == n.matchIndex && m.nextIndex == n.nextIndex
    else
      && m.matchIndex == (if lastSent > known then n.matchIndex[peer := lastSent] else n.matchIndex)
      && m.nextIndex == n.nextIndex[peer := (if lastSent > known then lastSent else known) + 1]
  }

  /** A success of the leader's own term, for a request of its own term, is tracked and committed. */
  lemma SuccessCommits(cfg: Config, n: Node, peer: ServerId, resp: AppendResp, lastSent: nat)
    requires n.role == Leader && resp.term == n.term && resp.success
    ensures var m := OnAppendReply(cfg, n, peer, resp, n.term, lastSent);
            && Acknowledged(n, m, peer, lastSent)
            && RightCommit(cfg, n.term, n.log, m.matchIndex, n.commitIndex, m.commitIndex)
            && m == n.(matchIndex := m.matchIndex, nextIndex := m.nextIndex, commitIndex := m.commitIndex)
  {
    CommitExact(cfg, Tracked(n, peer, lastSent));
  }

  /** Any other reply commits nothing: one of a later term deposes the leader, a refusal of the current
      exchange moves the peer's next index, and everything else is ignored. */
  lemma OtherReplies(cfg: Config, n: Node, peer: ServerId, resp: AppendResp, reqTerm: nat, lastSent: nat)
    ensures var m := OnAppendReply(cfg, n, peer, resp, reqTerm, lastSent);
            && (n.role != Leader ==> m == n)
            && (n.role == Leader && resp.term > n.term ==>
                  m == n.(term := resp.term, role := Follower, votedFor := "", leaderId := ""))
            && (n.role == Leader && resp.term <= n.term && (resp.term != n.term || reqTerm != n.term) ==> m == n)
            && (n.role == Leader && resp.term == n.term == reqTerm && !resp.success ==>
                  && m == n.(nextIndex := m.nextIndex) && m.nextIndex.Keys == n.nextIndex.Keys
                  && forall p :: p in n.nextIndex && p != peer ==> m.nextIndex[p] == n.nextIndex[p])
  {
  }

  // ---------------------------------------------------------------------------
  // Taking office

  /** A new leader has a no-op of its term at the end of its log and starts tracking every other server
      behind its old log; alone among voters it commits at once. */
  ghost predicate TookOffice(cfg: Config, n: Node, m: Node) {
    && m == n.(role := Leader, leaderId := cfg.id, transferring := false, log := m.log, commitIndex := m.commitIndex,
               nextIndex := m.nextIndex, matchIndex := m.matchIndex)
    && m.log == n.log + [LogEntry(n.term, |n.log| + 1, ENTRY_NORMAL, [])]
    && m.nextIndex.Keys == m.matchIndex.Keys == Members(cfg.servers) - {cfg.id}
    && (forall p :: p in m.nextIndex ==> m.nextIndex[p] == |n.log| + 1 && m.matchIndex[p] == 0)
    && m.commitIndex == if Voters(cfg.servers) == {cfg.id} && n.commitIndex < |m.log| then |m.log| else n.commitIndex
  }

  lemma AloneCommits(cfg: Config, n: Node, c: nat)
    requires Voters(cfg.servers) == {cfg.id} && n.log != [] && n.log[|n.log| - 1].term == n.term && n.commitIndex < |n.log|
    requires RightCommit(cfg, n.term, n.log, n.matchIndex, n.commitIndex, c)
    ensures c == |n.log|
  {
    var holders := {cfg.id} + set p | p in n.matchIndex && n.matchIndex[p] >= |n.log|;
    assert holders * Voters(cfg.servers) == {cfg.id};
    assert CanCommit(cfg, n.term, n.log, n.matchIndex, |n.log|);
  }

  lemma NobodyCommits(cfg: Config, n: Node, c: nat)
    requires |Voters(cfg.servers)| <= 1 && cfg.id !in Voters(cfg.servers)
    requires forall p :: p in n.matchIndex ==> n.matchIndex[p] == 0
    requires RightCommit(cfg, n.term, n.log, n.matchIndex, n.commitIndex, c)
    ensures c == n.commitIndex
  {
    forall idx: nat | 1 <= idx ensures !CanCommit(cfg, n.term, n.log, n.matchIndex, idx) {
      var holders := {cfg.id} + set p | p in n.matchIndex && n.matchIndex[p] >= idx;
      assert holders * Voters(cfg.servers) == {};
    }
  }

  lemma OneVoter(s: set<ServerId>, id: ServerId)
    requires |s| <= 1 && id in s
    ensures s == {id}
  {
    if exists x :: x in s && x != id {
      var x :| x in s && x != id;
      SubsetSize({id, x}, s);
    }
  }

  /** The new leader before anything is committed. */
  function Entering(cfg: Config, n: Node): Node {
    Installed(cfg, n).(log := n.log + [Noop(n)])
  }

  lemma FewVotersCommit(cfg: Config, n: Node)
    requires |Voters(cfg.servers)| <= 1
    ensures AdvanceCommit(cfg, Entering(cfg, n)).commitIndex
         == if Voters(cfg.servers) == {cfg.id} && n.commitIndex <= |n.log| then |n.log| + 1 else n.commitIndex
  {
    var l := Entering(cfg, n);
    CommitExact(cfg, l);
    if cfg.id in Voters(cfg.servers) {
      OneVoter(Voters(cfg.servers), cfg.id);
      if n.commitIndex <= |n.log| {
        AloneCommits(cfg, l, AdvanceCommit(cfg, l).commitIndex);
      }
    } else {
      NobodyCommits(cfg, l, AdvanceCommit(cfg, l).commitIndex);
    }
  }

  lemma OfficeExact(cfg: Config, n: Node)
    ensures TookOffice(cfg, n, BecomeLeader(cfg, n))
  {
    var l := Entering(cfg, n);
    if |Voters(cfg.servers)| <= 1 {
      FewVotersCommit(cfg, n);
      CommitExact(cfg, l);
    }
  }

  /** A candidate takes office exactly when the vote just granted to it in its term makes a majority. */
  lemma VoteCountedExact(cfg: Config, n: Node, from: ServerId, resp: VoteResp)
    ensures var m := OnVoteReply(cfg, n, from, resp);
            if n.role == Candidate && resp.term == n.term && resp.granted then
              var c := n.(votes := n.votes + {from});
              if MostVoters(cfg.servers, c.votes) then TookOffice(cfg, c, m) else m == c
            else if n.role == Candidate && resp.term > n.term then
              m == n.(term := resp.term, role := Follower, votedFor := "")
            else m == n
  {
    var c := n.(votes := n.votes + {from});
    MostIsQuorum(cfg.servers, c.votes);
    OfficeExact(cfg, c);
  }

  /** A campaign: the next term with the own vote in it, asking for votes with the end of the own log,
      or office at once for a server that needs nobody else. */
  ghost predicate Campaigns(cfg: Config, n: Node, transfer: bool, r: (Node, Option<VoteReq>)) {
    var c := n.(inPreVote := false, role := Candidate, term := n.term + 1, votedFor := cfg.id, leaderId := "", votes := {cfg.id});
    if |Voters(cfg.servers)| <= 1 then
      TookOffice(cfg, c, r.0) && r.1 == None
    else
      && r.0 == c
      && r.1 == Some(VoteReq(n.term + 1, cfg.id, |n.log|, if n.log == [] then 0 else n.log[|n.log| - 1].term, false, transfer))
  }

  lemma CampaignExact(cfg: Config, n: Node, transfer: bool)
    ensures Campaigns(cfg, n, transfer, RealElection(cfg, n, transfer))
  {
    OfficeExact(cfg, Campaigner(cfg, n));
  }

  /** A timeout starts a pre-vote round for the next term, which changes no term and no vote, where
      pre-voting is on and not skipped; otherwise it campaigns. */
  lemma ElectionExact(cfg: Config, n: Node, alreadyPreVoted: bool, transfer: bool)
    ensures var r := StartElection(cfg, n, alreadyPreVoted, transfer);
            if cfg.preVote && !alreadyPreVoted && !transfer then
              var c := n.(role := Candidate, inPreVote := true, preVotes := {cfg.id});
              if |Voters(cfg.servers)| <= 1 then Campaigns(cfg, c, false, r)
              else
                && r.0 == c
                && r.1 == Some(VoteReq(n.term + 1, cfg.id, |n.log|, if n.log == [] then 0 else n.log[|n.log| - 1].term, true, false))
            else Campaigns(cfg, n, transfer, r)
  {
    CampaignExact(cfg, n, transfer);
    CampaignExact(cfg, n.(role := Candidate, inPreVote := true, preVotes := {cfg.id}), false);
  }

  /** A pre-candidate campaigns exactly when the pre-vote just granted to it makes a majority. */
  lemma PreVoteCountedExact(cfg: Config, n: Node, from: ServerId, resp: VoteResp)
    ensures var r := OnPreVoteReply(cfg, n, from, resp);
            if n.role == Candidate && n.inPreVote && resp.term <= n.term && resp.granted then
              var c := n.(preVotes := n.preVotes + {from});
              if MostVoters(cfg.servers, c.preVotes) then Campaigns(cfg, c, false, r) else r == (c, None)
            else if n.role == Candidate && n.inPreVote && resp.term > n.term then
              r == (n.(term := resp.term, role := Follower, votedFor := "", inPreVote := false), None)
            else r == (n, None)
  {
    var c := n.(preVotes := n.preVotes + {from});
    MostIsQuorum(cfg.servers, c.preVotes);
    CampaignExact(cfg, c, false);
  }

  // ---------------------------------------------------------------------------
  // Proposals and losing touch

  /** A leader that is not handing over appends the whole batch, in order, under its own term and the
      next indices; alone among voters it commits at once. Everybody else drops it. */
  lemma ProposalExact(cfg: Config, n: Node, batch: seq<seq<byte>>)
    ensures var m := Propose(cfg, n, batch);
            if n.role == Leader && !n.transferring && batch != [] then
              && |m.log| == |n.log| + |batch| && m.log[..|n.log|] == n.log
              && (forall i :: 0 <= i < |batch| ==> m.log[|n.log| + i] == LogEntry(n.term, |n.log| + 1 + i, ENTRY_NORMAL, batch[i]))
              && m.commitIndex == (if |Voters(cfg.servers)| <= 1 then |m.log| else n.commitIndex)
              && m == n.(log := m.log, commitIndex := m.commitIndex)
            else m == n
  {
  }

  /** A leader steps down exactly when the check is on and it, with the voters heard from recently, is
      no majority. Term and vote stay. */
  lemma StepDownIff(cfg: Config, n: Node, recent: set<ServerId>, ticks: int)
    ensures var m := CheckQuorum(cfg, n, recent, ticks);
            if cfg.checkQuorum && n.role == Leader && 2 * (1 + |recent * Voters(cfg.servers)|) <= |Voters(cfg.servers)| then
              m == n.(role := Follower, leaderId := "", electionTicks := ticks, transferring := false)
            else m == n
  {
  }

  /** A restart keeps term, vote and log, takes the commit index from disk as far as the log reaches,
      and forgets everything else. */
  lemma RestartExact(n: Node, persistedCommit: nat, ticks: int)
    ensures var m := Restarted(n, persistedCommit, ticks);
            && m.term == n.term && m.votedFor == n.votedFor && m.log == n.log && m.electionTicks == ticks
            && m.commitIndex == Min(persistedCommit, |n.log|) && m.applyIndex == 0
            && m.role == Follower && m.leaderId == "" && !m.inPreVote && !m.transferring
            && m.preVotes == {} && m.votes == {} && m.nextIndex == map[] && m.matchIndex == map[]
  {
  }
}
