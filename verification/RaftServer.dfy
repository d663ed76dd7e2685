/** The raft object of pkg/raft/raft.go with its fields, loops and in-place updates, each method
    proved against the function of RaftNode that the cluster theorems are about. The log store is
    a sequence; lastIndex and lastTerm are the source's cached copies. The vote maps, which only
    ever record true, are sets. */
module RaftServer {
  import opened LogTypes
  import opened Membership
  import opened RaftNode

  type Cluster = c: Configuration | DistinctIds(c)

  class Server {
    const id: ServerId
    const servers: Cluster
    const preVote: bool
    const checkQuorum: bool

    var role: Role
    var term: nat
    var votedFor: ServerId
    var log: Log
    var lastIndex: nat
    var lastTerm: nat
    var commitIndex: nat
    var applyIndex: nat
    var leaderId: ServerId
    var electionTicks: int
    var inPreVote: bool
    var preVotes: set<ServerId>
    var votes: set<ServerId>
    var nextIndex: map<ServerId, nat>
    var matchIndex: map<ServerId, nat>
    var transferring: bool

    ghost predicate Valid()
      reads this
    {
      && lastIndex == |log| && lastTerm == LastTerm(log)
      && id !in matchIndex
    }

    ghost function Cfg(): Config {
      Config(id, servers, preVote, checkQuorum)
    }

    ghost function Value(): Node
      reads this
    {
      Node(role, term, votedFor, log, commitIndex, applyIndex, leaderId, electionTicks, inPreVote,
           preVotes, votes, nextIndex, matchIndex, transferring)
    }

    constructor (id: ServerId, servers: Cluster, preVote: bool, checkQuorum: bool)
      ensures Valid() && Value() == FreshNode()
      ensures Cfg() == Config(id, servers, preVote, checkQuorum)
    {
      this.id, this.servers, this.preVote, this.checkQuorum := id, servers, preVote, checkQuorum;
      role, term, votedFor, log, lastIndex, lastTerm := Follower, 0, "", [], 0, 0;
      commitIndex, applyIndex, leaderId, electionTicks := 0, 0, "", 0;
      inPreVote, preVotes, votes, nextIndex, matchIndex, transferring := false, {}, {}, map[], map[], false;
    }

    method StepDown(t: nat)
      requires Valid()
      modifies this`term, this`role, this`votedFor
      ensures Valid() && Value() == Adopt(old(Value()), t)
    {
      term := t;
      role := Follower;
      votedFor := "";
    }

    // -------------------------------------------------------------------------
    // The log

    /** persistLog: refuse a batch that does not continue the log, append it otherwise. */
    method PersistLog(entries: Log) returns (ok: bool)
      requires Valid()
      modifies this`log, this`lastIndex, this`lastTerm
      ensures Valid()
      ensures ok <==> Consecutive(entries, old(|log|) + 1)
      ensures log == if ok then old(log) + entries else old(log)
    {
      var expected := lastIndex + 1;
      for i := 0 to |entries|
        invariant expected == lastIndex + 1 + i
        invariant forall j :: 0 <= j < i ==> entries[j].index == lastIndex + 1 + j
      {
        if entries[i].index != expected {
          return false;
        }
        expected := expected + 1;
      }
      log := log + entries;
      for i := 0 to |entries|
        invariant log == old(log) + entries
        invariant i > 0 ==> lastIndex == old(|log|) + i && lastTerm == entries[i - 1].term
        invariant i == 0 ==> lastIndex == old(|log|) && lastTerm == LastTerm(old(log))
      {
        lastIndex := entries[i].index;
        lastTerm := entries[i].term;
      }
      assert entries == [] ==> log == old(log);
      return true;
    }

    /** truncateLog: keep the first i entries, capping the commit index. */
    method TruncateLog(i: nat)
      requires Valid() && i <= |log|
      modifies this`log, this`lastIndex, this`lastTerm, this`commitIndex
      ensures Valid() && Value() == Truncated(old(Value()), i)
    {
      log := log[..i];
      lastIndex := i;
      if i > 0 {
        lastTerm := log[i - 1].term;
      } else {
        lastTerm := 0;
      }
      if commitIndex > lastIndex {
        commitIndex := lastIndex;
      }
    }

    /** lastIndexOfTerm scans down from the end. */
    method FindLastIndexOfTerm(t: nat) returns (r: nat)
      requires Valid()
      ensures r == LastIndexOfTerm(log, t, |log|)
    {
      var idx: nat := lastIndex;
      while idx >= 1
        invariant 0 <= idx <= |log|
        invariant LastIndexOfTerm(log, t, idx) == LastIndexOfTerm(log, t, |log|)
      {
        if log[idx - 1].term == t {
          return idx;
        }
        if log[idx - 1].term < t {
          return 0;
        }
        idx := idx - 1;
      }
      return 0;
    }

    /** The first index of the conflicting run, walked down one entry at a time. */
    method FindRunStart(prev: nat) returns (ci: nat)
      requires 1 <= prev <= |log|
      ensures ci == RunStart(log, prev)
    {
      ci := prev;
      while ci > 1
        invariant 1 <= ci <= prev
        invariant log[ci - 1].term == log[prev - 1].term
        invariant RunStart(log, ci) == RunStart(log, prev)
      {
        if log[ci - 2].term != log[prev - 1].term {
          break;
        }
        ci := ci - 1;
      }
    }

    // -------------------------------------------------------------------------
    // Append requests

    method HandleAppendEntries(req: AppendReq, ticks: int) returns (resp: AppendResp)
      requires Valid()
      modifies this
      ensures Valid() && (Value(), resp) == HandleAppend(Cfg(), old(Value()), req, ticks)
    {
      resp := AppendResp(term, false, 0, 0);
      if req.term < term {
        return;
      }
      HeedLeader(req, ticks);
      resp := CheckPrevious(req, resp);
    }

    method HeedLeader(req: AppendReq, ticks: int)
      requires Valid() && req.term >= term
      modifies this`term, this`role, this`votedFor, this`leaderId, this`electionTicks, this`transferring
      ensures Valid() && Value() == Heed(Cfg(), old(Value()), req, ticks)
    {
      if req.term > term {
        StepDown(req.term);
      }
      if role == Candidate && req.term == term {
        role := Follower;
      }
      leaderId := req.leaderId;
      electionTicks := ticks;
      if transferring && req.leaderId != id {
        transferring := false;
      }
    }

    /** The consistency check on the entry before the new ones, with its conflict hints. */
    method CheckPrevious(req: AppendReq, refused: AppendResp) returns (resp: AppendResp)
      requires Valid()
      modifies this`log, this`lastIndex, this`lastTerm, this`commitIndex
      ensures Valid() && (Value(), resp) == CheckAndStore(old(Value()), req, refused)
    {
      if req.prevIndex > 0 {
        if req.prevIndex > lastIndex {
          return refused.(index := lastIndex + 1);
        }
        if log[req.prevIndex - 1].term != req.prevTerm {
          var ci := FindRunStart(req.prevIndex);
          return refused.(conflictTerm := log[req.prevIndex - 1].term, index := ci);
        }
      }
      resp := StoreEntries(req, refused);
    }

    /** The entries loop skips what the log holds already and stores the rest in one go. */
    method StoreEntries(req: AppendReq, refused: AppendResp) returns (resp: AppendResp)
      requires Valid()
      modifies this`log, this`lastIndex, this`lastTerm, this`commitIndex
      ensures Valid() && (Value(), resp) == Store(old(Value()), req, refused)
    {
      for i := 0 to |req.entries|
        invariant unchanged(this)
        invariant FirstNew(log, req.entries) == i + FirstNew(log, req.entries[i..])
      {
        var entry := req.entries[i];
        assert req.entries[i..][1..] == req.entries[i + 1..];
        if 1 <= entry.index <= lastIndex && log[entry.index - 1].term == entry.term {
          continue;
        }
        resp := StoreSuffix(req, req.entries[i..], refused);
        return;
      }
      resp := FollowCommit(req);
    }

    method StoreSuffix(req: AppendReq, rest: Log, refused: AppendResp) returns (resp: AppendResp)
      requires Valid() && rest != []
      modifies this`log, this`lastIndex, this`lastTerm, this`commitIndex
      ensures Valid() && (Value(), resp) == StoreRest(old(Value()), req, rest, refused)
    {
      if 1 <= rest[0].index <= lastIndex {
        if rest[0].index <= commitIndex {
          return refused.(index := commitIndex + 1);
        }
        TruncateLog(rest[0].index - 1);
      }
      ghost var cut := Value();
      var ok := PersistLog(rest);
      if !ok {
        return refused;
      }
      assert Value() == cut.(log := cut.log + rest);
      resp := FollowCommit(req);
    }

    method FollowCommit(req: AppendReq) returns (resp: AppendResp)
      requires Valid()
      modifies this`commitIndex
      ensures Valid() && (Value(), resp) == Stored(old(Value()), req)
    {
      var lastReqIndex := req.prevIndex;
      var n := |req.entries|;
      if n > 0 {
        lastReqIndex := req.entries[n - 1].index;
      }
      if req.leaderCommit > commitIndex {
        commitIndex := Min(req.leaderCommit, lastReqIndex);
      }
      resp := AppendResp(term, true, lastIndex, 0);
    }

    // -------------------------------------------------------------------------
    // Votes

    method HandleRequestVote(req: VoteReq, durable: bool, ticks: int) returns (resp: VoteResp)
      requires Valid()
      modifies this`term, this`role, this`votedFor, this`electionTicks
      ensures Valid() && (Value(), resp) == HandleVote(Cfg(), old(Value()), req, durable, ticks)
    {
      if req.preVote {
        resp := HandlePreVote(req);
        return;
      }
      resp := VoteResp(term, false);
      if req.term < term {
        return;
      }
      if checkQuorum && !req.transfer && electionTicks > 0 && leaderId != "" {
        return;
      }
      if req.term > term {
        StepDown(req.term);
      }
      resp := DecideVote(req, durable, ticks, resp);
    }

    /** A pre-vote is answered without changing anything. */
    method HandlePreVote(req: VoteReq) returns (resp: VoteResp)
      requires Valid()
      ensures resp.term == term
      ensures resp.granted <==> req.term >= term && !HeardFromLeader(Value()) && LogOk(req, log)
    {
      resp := VoteResp(term, false);
      if req.term < term {
        return;
      }
      if electionTicks > 0 && leaderId != "" {
        return;
      }
      if !(req.lastTerm > lastTerm || (req.lastTerm == lastTerm && req.lastIndex >= lastIndex)) {
        return;
      }
      resp := VoteResp(term, true);
    }

    method DecideVote(req: VoteReq, durable: bool, ticks: int, refused: VoteResp) returns (resp: VoteResp)
      requires Valid()
      modifies this`votedFor, this`electionTicks
      ensures Valid() && (Value(), resp) == Decide(old(Value()), req, durable, ticks, refused)
    {
      if votedFor != "" && votedFor != req.candidate {
        return refused;
      }
      if !(req.lastTerm > lastTerm || (req.lastTerm == lastTerm && req.lastIndex >= lastIndex)) {
        return refused;
      }
      var prevVotedFor := votedFor;
      votedFor := req.candidate;
      if !durable {
        votedFor := prevVotedFor;
        return VoteResp(term, false);
      }
      electionTicks := ticks;
      resp := VoteResp(term, true);
    }

    method StartElectionWith(alreadyPreVoted: bool, transfer: bool) returns (req: Option<VoteReq>)
      requires Valid()
      modifies this
      ensures Valid() && (Value(), req) == StartElection(Cfg(), old(Value()), alreadyPreVoted, transfer)
    {
      if preVote && !alreadyPreVoted && !transfer {
        req := BeginPreVote();
      } else {
        req := BeginElection(transfer);
      }
    }

    method Nominate()
      requires Valid()
      modifies this`inPreVote, this`role, this`term, this`votedFor, this`leaderId, this`votes
      ensures Valid() && Value() == Campaigner(Cfg(), old(Value()))
    {
      BecomeCandidate();
      VoteForSelf();
    }

    method BecomeCandidate()
      requires Valid()
      modifies this`inPreVote, this`role, this`leaderId
      ensures Valid() && Value() == old(Value()).(inPreVote := false, role := Candidate, leaderId := "")
    {
      inPreVote := false;
      role := Candidate;
      leaderId := "";
    }

    method VoteForSelf()
      requires Valid()
      modifies this`term, this`votedFor, this`votes
      ensures Valid() && Value() == old(Value()).(term := old(term) + 1, votedFor := id, votes := {id})
    {
      term := term + 1;
      votedFor := id;
      votes := {id};
    }

    method QuorumIsOne() returns (yes: bool)
      ensures yes <==> QuorumSize(servers) == 1
    {
      var voters := VoteCount(servers);
      yes := voters / 2 + 1 == 1;
    }

    method BeginElection(transfer: bool) returns (req: Option<VoteReq>)
      requires Valid()
      modifies this
      ensures Valid() && (Value(), req) == RealElection(Cfg(), old(Value()), transfer)
    {
      Nominate();
      var alone := QuorumIsOne();
      if alone {
        TakeOffice();
        return None;
      }
      req := Some(VoteReq(term, id, lastIndex, lastTerm, false, transfer));
    }

    method BeginPreVote() returns (req: Option<VoteReq>)
      requires Valid()
      modifies this
      ensures Valid() && (Value(), req) == StartPreVote(Cfg(), old(Value()))
    {
      role := Candidate;
      inPreVote := true;
      preVotes := {id};
      var alone := QuorumIsOne();
      if alone {
        req := BeginElection(false);
        return;
      }
      req := Some(VoteReq(term + 1, id, lastIndex, lastTerm, true, false));
    }

    method Elected(granted: set<ServerId>) returns (won: bool)
      ensures won <==> VotesAccepted(Stable(servers), granted)
    {
      var ballots := map p | p in granted :: true;
      assert Granted(ballots) == granted;
      won := HasVoteQuorum(Stable(servers), ballots);
    }

    method ReceiveVote(from: ServerId, resp: VoteResp)
      requires Valid()
      modifies this
      ensures Valid() && Value() == OnVoteReply(Cfg(), old(Value()), from, resp)
    {
      if role != Candidate {
        return;
      }
      if resp.term > term {
        StepDown(resp.term);
        return;
      }
      if resp.term != term {
        return;
      }
      if resp.granted {
        votes := votes + {from};
        var won := Elected(votes);
        if won {
          TakeOffice();
        }
      }
    }

    method ReceivePreVote(from: ServerId, resp: VoteResp) returns (req: Option<VoteReq>)
      requires Valid()
      modifies this
      ensures Valid() && (Value(), req) == OnPreVoteReply(Cfg(), old(Value()), from, resp)
    {
      req := None;
      if !inPreVote || role != Candidate {
        return;
      }
      if resp.term > term {
        StepDown(resp.term);
        inPreVote := false;
        return;
      }
      if resp.granted {
        preVotes := preVotes + {from};
        var won := Elected(preVotes);
        if won {
          req := BeginElection(false);
        }
      }
    }

    /** becomeLeader: fresh trackers for every other server, then the no-op entry. */
    method TakeOffice()
      requires Valid()
      modifies this
      ensures Valid() && Value() == BecomeLeader(Cfg(), old(Value()))
    {
      ResetTrackers();
      var noop := LogEntry(term, lastIndex + 1, ENTRY_NORMAL, []);
      var ok := PersistLog([noop]);
      var alone := QuorumIsOne();
      if alone {
        AdvanceCommitIndex();
      }
    }

    method ResetTrackers()
      requires Valid()
      modifies this`role, this`leaderId, this`transferring, this`nextIndex, this`matchIndex
      ensures Valid() && Value() == Installed(Cfg(), old(Value()))
    {
      LeadTerm();
      nextIndex := FreshTrackers(lastIndex + 1);
      matchIndex := FreshTrackers(0);
    }

    method LeadTerm()
      requires Valid()
      modifies this`role, this`leaderId, this`transferring
      ensures Valid() && Value() == old(Value()).(role := Leader, leaderId := id, transferring := false)
    {
      role := Leader;
      leaderId := id;
      transferring := false;
    }

    method FreshTrackers(start: nat) returns (trackers: map<ServerId, nat>)
      ensures trackers == Trackers(Cfg(), start)
    {
      trackers := map[];
      for i := 0 to |servers|
        invariant trackers.Keys == Members(servers[..i]) - {id}
        invariant forall p | p in trackers :: trackers[p] == start
      {
        MembersSnoc(servers, i);
        if servers[i].id != id {
          trackers := trackers[servers[i].id := start];
        }
      }
      assert servers[..|servers|] == servers;
    }

    // -------------------------------------------------------------------------
    // Committing

    /** How many voters hold index idx: the leader itself and every peer matched that far. */
    method CountHolders(idx: nat) returns (count: nat)
      requires Valid()
      ensures count == |KnownHolders(Cfg(), Value(), idx) * Voters(servers)|
    {
      ghost var voters := Voters(servers);
      ghost var matched := set p | p in matchIndex && matchIndex[p] >= idx;
      count := 0;
      var self := GetServer(servers, id);
      if self.Some? && !self.value.learner {
        count := 1;
      }
      var todo := matchIndex.Keys;
      ghost var base := count;
      while todo != {}
        invariant todo <= matchIndex.Keys
        invariant count == base + |(matched - todo) * voters|
        decreases todo
      {
        var p :| p in todo;
        VisitOne(matched, todo, voters, p);
        todo := todo - {p};
        if matchIndex[p] >= idx {
          var s := GetServer(servers, p);
          if s.Some? && !s.value.learner {
            count := count + 1;
          }
        }
      }
      assert matched - {} == matched;
      SelfAndPeers(id, matched, voters);
    }

    method AdvanceCommitIndex()
      requires Valid()
      modifies this`commitIndex
      ensures Valid() && Value() == AdvanceCommit(Cfg(), old(Value()))
    {
      if commitIndex <= lastIndex {
        commitIndex := ScanForCommit();
      }
    }

    /** Every index above the commit index is tried, the highest that passes wins. */
    method ScanForCommit() returns (reached: nat)
      requires Valid() && commitIndex <= |log|
      ensures reached == CommitPoint(Cfg(), Value(), commitIndex + 1, commitIndex)
    {
      ghost var cfg, n := Cfg(), Value();
      var idx: nat := commitIndex + 1;
      reached := commitIndex;
      while idx <= lastIndex
        invariant 1 <= idx <= |n.log| + 1
        invariant CommitPoint(cfg, n, idx, reached) == CommitPoint(cfg, n, n.commitIndex + 1, n.commitIndex)
      {
        var majority := HeldByMajority(idx);
        if majority {
          reached := idx;
        }
        idx := idx + 1;
      }
    }

    method HeldByMajority(idx: nat) returns (yes: bool)
      requires Valid() && 1 <= idx <= |log|
      ensures yes <==> Committable(Cfg(), Value(), idx)
    {
      if log[idx - 1].term != term {
        return false;
      }
      var voters := VoteCount(servers);
      var count := CountHolders(idx);
      yes := count >= voters / 2 + 1;
    }

    // -------------------------------------------------------------------------
    // Replication

    /** The batch loop of replicateOnce: at most 100 entries, and after the first one no more than
        maxSize bytes of data. */
    method CollectBatch(next: nat, maxSize: nat) returns (entries: Log)
      requires Valid() && next >= 1
      ensures |entries| <= 100
      ensures next <= |log| ==> 1 <= |entries| && next - 1 + |entries| <= |log| && entries == log[next - 1..next - 1 + |entries|]
      ensures next > |log| ==> entries == []
      ensures |entries| > 1 ==> Bytes(entries) <= maxSize
      ensures 1 <= |entries| < 100 && next - 1 + |entries| < |log| ==>
                Bytes(entries) + |log[next - 1 + |entries|].data| > maxSize
    {
      entries := [];
      var totalBytes := 0;
      var idx := next;
      while idx <= lastIndex && |entries| < 100
        invariant idx == next + |entries| && |entries| <= 100
        invariant totalBytes == Bytes(entries)
        invariant |entries| > 0 ==> idx - 1 <= |log|
        invariant next <= |log| ==> entries == log[next - 1..idx - 1]
        invariant |entries| > 1 ==> totalBytes <= maxSize
        decreases lastIndex + 1 - idx
      {
        var entry := log[idx - 1];
        if |entries| > 0 && totalBytes + |entry.data| > maxSize {
          break;
        }
        BytesSnoc(entries, entry);
        SliceSnoc(log, next - 1, idx - 1);
        entries := entries + [entry];
        totalBytes := totalBytes + |entry.data|;
        idx := idx + 1;
      }
    }

    method ReceiveAppendReply(peer: ServerId, resp: AppendResp, reqTerm: nat, lastSent: nat)
      requires Valid() && peer != id
      modifies this
      ensures Valid() && Value() == OnAppendReply(Cfg(), old(Value()), peer, resp, reqTerm, lastSent)
    {
      if role != Leader {
        return;
      }
      if resp.term > term {
        StepDown(resp.term);
        leaderId := "";
        return;
      }
      if resp.term != term {
        return;
      }
      if reqTerm != term {
        return;
      }
      if resp.success {
        RecordProgress(peer, lastSent);
        AdvanceCommitIndex();
      } else {
        BackOff(peer, resp);
      }
    }

    method RecordProgress(peer: ServerId, lastSent: nat)
      requires Valid() && peer != id
      modifies this`matchIndex, this`nextIndex
      ensures Valid() && Value() == Tracked(old(Value()), peer, lastSent)
    {
      if lastSent > 0 {
        if lastSent > AtLeast(matchIndex, peer) {
          matchIndex := matchIndex[peer := lastSent];
        }
        nextIndex := nextIndex[peer := AtLeast(matchIndex, peer) + 1];
      }
    }

    method BackOff(peer: ServerId, resp: AppendResp)
      requires Valid()
      modifies this`nextIndex
      ensures Valid()
      ensures nextIndex == if peer !in old(nextIndex) then old(nextIndex)
                           else old(nextIndex)[peer := BackedOff(log, old(nextIndex)[peer], resp)]
    {
      var current := AtLeast(nextIndex, peer);
      var next := current;
      if resp.conflictTerm > 0 {
        var last := FindLastIndexOfTerm(resp.conflictTerm);
        if last > 0 {
          next := last + 1;
        } else if resp.index > 0 {
          next := resp.index;
        }
      } else if resp.index > 0 {
        next := resp.index;
      } else if next > 1 {
        next := next - 1;
      }
      if next < 1 {
        next := 1;
      }
      if next < current {
        nextIndex := nextIndex[peer := next];
      } else if current > 1 {
        nextIndex := nextIndex[peer := current - 1];
      }
    }

    method BuildEntries(batch: seq<seq<byte>>) returns (entries: Log)
      requires Valid()
      ensures entries == NewEntries(term, |log|, batch)
    {
      entries := [];
      var next := lastIndex + 1;
      for i := 0 to |batch|
        invariant next == |log| + 1 + i
        invariant entries == NewEntries(term, |log|, batch)[..i]
      {
        entries := entries + [LogEntry(term, next, ENTRY_NORMAL, batch[i])];
        next := next + 1;
      }
    }

    /** The batch at the end of the log, under the next indices. */
    method AppendBatch(batch: seq<seq<byte>>) returns (lastEntryIndex: nat)
      requires Valid() && batch != []
      modifies this`log, this`lastIndex, this`lastTerm
      ensures Valid() && Value() == old(Value()).(log := old(log) + NewEntries(term, old(|log|), batch))
      ensures lastEntryIndex == |log|
    {
      var entries := BuildEntries(batch);
      var ok := PersistLog(entries);
      lastEntryIndex := entries[|entries| - 1].index;
    }

    method HandleProposal(batch: seq<seq<byte>>)
      requires Valid()
      modifies this`log, this`lastIndex, this`lastTerm, this`commitIndex
      ensures Valid() && Value() == Propose(Cfg(), old(Value()), batch)
    {
      if role != Leader || transferring || |batch| == 0 {
        return;
      }
      var lastEntryIndex := AppendBatch(batch);
      var alone := QuorumIsOne();
      if alone {
        commitIndex := lastEntryIndex;
      }
    }
  }

  function Bytes(entries: Log): nat {
    if entries == [] then 0 else Bytes(entries[..|entries| - 1]) + |entries[|entries| - 1].data|
  }

  lemma SliceSnoc(l: Log, from: nat, to: nat)
    requires from <= to < |l|
    ensures l[from..to + 1] == l[from..to] + [l[to]]
  {
  }

  lemma BytesSnoc(entries: Log, e: LogEntry)
    ensures Bytes(entries + [e]) == Bytes(entries) + |e.data|
  {
    assert (entries + [e])[..|entries|] == entries;
  }

  lemma SelfAndPeers(id: ServerId, matched: set<ServerId>, voters: set<ServerId>)
    requires id !in matched
    ensures |({id} + matched) * voters| == (if id in voters then 1 else 0) + |matched * voters|
  {
    var peers := matched * voters;
    assert ({id} + matched) * voters == if id in voters then peers + {id} else peers;
  }
}
