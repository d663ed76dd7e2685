/** A cluster of RaftNode servers with a fixed membership over a network that may drop, delay,
    duplicate and reorder. Sent packets stay in a growing set; delivering one never removes it. */
module RaftProtocol {
  import opened LogTypes
  import opened Membership
  import opened RaftNode

  /** A reply carries what the sender captured with the request: which kind of vote it answers,
      or the request's term and last entry. */
  datatype Packet =
    | VoteCall(src: ServerId, dst: ServerId, vote: VoteReq)
    | VoteReply(src: ServerId, dst: ServerId, preVote: bool, voteResp: VoteResp)
    | AppendCall(src: ServerId, dst: ServerId, append: AppendReq)
    | AppendReply(src: ServerId, dst: ServerId, appendResp: AppendResp, reqTerm: nat, lastSent: nat)

  /** stable: the commit index last flushed to disk; target: the commit index the apply loop read;
      applied: every (server, index, entry) ever handed to a state machine. */
  datatype Sys = Sys(
    servers: Configuration,
    preVote: bool,
    checkQuorum: bool,
    nodes: map<ServerId, Node>,
    net: set<Packet>,
    stable: map<ServerId, nat>,
    target: map<ServerId, nat>,
    applied: set<(ServerId, nat, LogEntry)>)

  /** Fixed, distinct, named voters. */
  predicate ValidMembership(c: Configuration) {
    DistinctIds(c) && LearnerFree(c) && c != [] && "" !in Members(c)
  }

  function Boot(c: Configuration, preVote: bool, checkQuorum: bool): Sys {
    Sys(c, preVote, checkQuorum, map n | n in Voters(c) :: FreshNode(), {},
        map n | n in Voters(c) :: 0, map n | n in Voters(c) :: 0, {})
  }

  predicate Wired(s: Sys) {
    && s.nodes.Keys == Voters(s.servers)
    && s.stable.Keys == Voters(s.servers)
    && s.target.Keys == Voters(s.servers)
  }

  function Cfg(s: Sys, n: ServerId): Config {
    Config(n, s.servers, s.preVote, s.checkQuorum)
  }

  /** Everything that can happen, each under one critical section of the acting server. */
  datatype Action =
    | Timeout(n: ServerId)
    | TimeoutNow(n: ServerId)
    | SetTimer(n: ServerId, ticks: int)
    | BeginTransfer(n: ServerId)
    | DeliverVote(p: Packet, durable: bool, ticks: int)
    | DeliverVoteReply(p: Packet)
    | SendAppend(n: ServerId, peer: ServerId, count: nat)
    | DeliverAppend(p: Packet, ticks: int)
    | DeliverAppendReply(p: Packet)
    | ClientBatch(n: ServerId, batch: seq<seq<byte>>)
    | QuorumCheck(n: ServerId, recent: set<ServerId>, ticks: int)
    | FlushCommit(n: ServerId)
    | ReadCommit(n: ServerId)
    | ApplyNext(n: ServerId)
    | Restart(n: ServerId, ticks: int)

  function Actor(a: Action): ServerId {
    match a
    case DeliverVote(p, _, _) => p.dst
    case DeliverVoteReply(p) => p.dst
    case DeliverAppend(p, _) => p.dst
    case DeliverAppendReply(p) => p.dst
    case _ => a.n
  }

  predicate Enabled(s: Sys, a: Action) {
    && Wired(s) && Actor(a) in s.nodes
    && match a
       case DeliverVote(p, _, _) => p in s.net && p.VoteCall?
       case DeliverVoteReply(p) => p in s.net && p.VoteReply?
       case DeliverAppend(p, _) => p in s.net && p.AppendCall?
       case DeliverAppendReply(p) => p in s.net && p.AppendReply?
       case SendAppend(n, peer, count) =>
         var m := s.nodes[n];
         m.role == Leader && peer in m.nextIndex && 1 <= m.nextIndex[peer] && m.nextIndex[peer] - 1 + count <= |m.log|
       case ApplyNext(n) => s.nodes[n].applyIndex < s.target[n] && s.nodes[n].applyIndex < |s.nodes[n].log|
       case _ => true
  }

  /** A vote request goes to every other voter. */
  function Broadcast(s: Sys, n: ServerId, req: Option<VoteReq>): set<Packet> {
    if req.None? then {} else set p | p in Peers(Cfg(s, n)) :: VoteCall(n, p, req.value)
  }

  function Updated(s: Sys, n: ServerId, m: Node, sent: set<Packet>): Sys {
    s.(nodes := s.nodes[n := m], net := s.net + sent)
  }

  function Act(s: Sys, a: Action): Sys
    requires Enabled(s, a)
  {
    var n := Actor(a);
    var me, cfg := s.nodes[n], Cfg(s, n);
    match a
    case Timeout(_) =>
      var (m, req) := StartElection(cfg, me, false, false);
      Updated(s, n, m, Broadcast(s, n, req))
    case TimeoutNow(_) =>
      var (m, req) := StartElection(cfg, me, true, true);
      Updated(s, n, m, Broadcast(s, n, req))
    case SetTimer(_, ticks) =>
      Updated(s, n, me.(electionTicks := ticks), {})
    case BeginTransfer(_) =>
      Updated(s, n, me.(transferring := true), {})
    case DeliverVote(p, durable, ticks) =>
      var (m, resp) := HandleVote(cfg, me, p.vote, durable, ticks);
      Updated(s, n, m, {VoteReply(n, p.src, p.vote.preVote, resp)})
    case DeliverVoteReply(p) =>
      if p.preVote then
        var (m, req) := OnPreVoteReply(cfg, me, p.src, p.voteResp);
        Updated(s, n, m, Broadcast(s, n, req))
      else
        Updated(s, n, OnVoteReply(cfg, me, p.src, p.voteResp), {})
    case SendAppend(_, peer, count) =>
      Updated(s, n, me, {AppendCall(n, peer, BuildAppend(cfg, me, peer, count))})
    case DeliverAppend(p, ticks) =>
      var (m, resp) := HandleAppend(cfg, me, p.append, ticks);
      var lastSent := if p.append.entries == [] then 0 else LastCovered(p.append);
      Updated(s, n, m, {AppendReply(n, p.src, resp, p.append.term, lastSent)})
    case DeliverAppendReply(p) =>
      Updated(s, n, OnAppendReply(cfg, me, p.src, p.appendResp, p.reqTerm, p.lastSent), {})
    case ClientBatch(_, batch) =>
      Updated(s, n, Propose(cfg, me, batch), {})
    case QuorumCheck(_, recent, ticks) =>
      Updated(s, n, CheckQuorum(cfg, me, recent, ticks), {})
    case FlushCommit(_) =>
      s.(stable := s.stable[n := me.commitIndex])
    case ReadCommit(_) =>
      s.(target := s.target[n := me.commitIndex])
    case ApplyNext(_) =>
      var m := me.(applyIndex := me.applyIndex + 1);
      s.(nodes := s.nodes[n := m], applied := s.applied + {(n, m.applyIndex, me.log[me.applyIndex])})
    case Restart(_, ticks) =>
      s.(nodes := s.nodes[n := Restarted(me, s.stable[n], ticks)], target := s.target[n := 0])
  }

  /** A run starts from freshly booted servers and takes enabled actions. */
  ghost predicate IsRun(run: seq<Sys>, acts: seq<Action>) {
    && |run| == |acts| + 1
    && ValidMembership(run[0].servers)
    && run[0] == Boot(run[0].servers, run[0].preVote, run[0].checkQuorum)
    && forall k :: 0 <= k < |acts| ==> Enabled(run[k], acts[k]) && run[k + 1] == Act(run[k], acts[k])
  }
}
