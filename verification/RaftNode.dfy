/** One server of pkg/raft/raft.go as a value, and what each block that runs under its lock
    does to it. RaftServer proves the imperative code against these functions; RaftProtocol
    runs a cluster of them. */
module RaftNode {
  import opened LogTypes
  import opened Membership

  datatype Role = Follower | Candidate | Leader

  /** votedFor and leaderId hold "" for none, as in the source. */
  datatype Node = Node(
    role: Role,
    term: nat,
    votedFor: ServerId,
    log: Log,
    commitIndex: nat,
    applyIndex: nat,
    leaderId: ServerId,
    electionTicks: int,
    inPreVote: bool,
    preVotes: set<ServerId>,
    votes: set<ServerId>,
    nextIndex: map<ServerId, nat>,
    matchIndex: map<ServerId, nat>,
    transferring: bool)

  datatype Config = Config(id: ServerId, servers: Configuration, preVote: bool, checkQuorum: bool)

  datatype AppendReq = AppendReq(term: nat, leaderId: ServerId, prevIndex: nat, prevTerm: nat,
                                 entries: Log, leaderCommit: nat)
  datatype AppendResp = AppendResp(term: nat, success: bool, index: nat, conflictTerm: nat)
  datatype VoteReq = VoteReq(term: nat, candidate: ServerId, lastIndex: nat, lastTerm: nat,
                             preVote: bool, transfer: bool)
  datatype VoteResp = VoteResp(term: nat, granted: bool)

  function FreshNode(): Node {
    Node(Follower, 0, "", [], 0, 0, "", 0, false, {}, {}, map[], map[], false)
  }

  /** A crash keeps what was persisted: the term, the vote, the log and some earlier commit
      index, capped by the log. */
  function Restarted(n: Node, persistedCommit: nat, ticks: int): Node {
    FreshNode().(term := n.term, votedFor := n.votedFor, log := n.log, electionTicks := ticks,
                 commitIndex := if persistedCommit > |n.log| then |n.log| else persistedCommit)
  }

  function AtLeast(map_: map<ServerId, nat>, id: ServerId): nat {
    if id in map_ then map_[id] else 0
  }

  /** Adopting a higher term always means following and forgetting the vote. */
  function Adopt(n: Node, t: nat): Node {
    n.(term := t, role := Follower, votedFor := "")
  }

  // ---------------------------------------------------------------------------
  // Elections

  function Peers(cfg: Config): set<ServerId> {
    Voters(cfg.servers) - {cfg.id}
  }

  function StartElection(cfg: Config, n: Node, alreadyPreVoted: bool, transfer: bool): (Node, Option<VoteReq>) {
    if cfg.preVote && !alreadyPreVoted && !transfer then StartPreVote(cfg, n) else RealElection(cfg, n, transfer)
  }

  /** A candidate in a fresh term, having voted for itself. */
  function Campaigner(cfg: Config, n: Node): Node {
    n.(inPreVote := false, role := Candidate, term := n.term + 1, votedFor := cfg.id,
       leaderId := "", votes := {cfg.id})
  }

  function RealElection(cfg: Config, n: Node, transfer: bool): (Node, Option<VoteReq>) {
    var c := Campaigner(cfg, n);
    if QuorumSize(cfg.servers) == 1 then
      (BecomeLeader(cfg, c), None)
    else
      (c, Some(VoteReq(c.term, cfg.id, |c.log|, LastTerm(c.log), false, transfer)))
  }

  function StartPreVote(cfg: Config, n: Node): (Node, Option<VoteReq>) {
    var c := n.(role := Candidate, inPreVote := true, preVotes := {cfg.id});
    if QuorumSize(cfg.servers) == 1 then
      RealElection(cfg, c, false)
    else
      (c, Some(VoteReq(c.term + 1, cfg.id, |c.log|, LastTerm(c.log), true, false)))
  }

  function OnPreVoteReply(cfg: Config, n: Node, from: ServerId, resp: VoteResp): (Node, Option<VoteReq>) {
    if !n.inPreVote || n.role != Candidate then
      (n, None)
    else if resp.term > n.term then
      (Adopt(n, resp.term).(inPreVote := false), None)
    else if !resp.granted then
      (n, None)
    else
      var c := n.(preVotes := n.preVotes + {from});
      if VotesAccepted(Stable(cfg.servers), c.preVotes) then RealElection(cfg, c, false) else (c, None)
  }

  function OnVoteReply(cfg: Config, n: Node, from: ServerId, resp: VoteResp): Node {
    if n.role != Candidate then
      n
    else if resp.term > n.term then
      Adopt(n, resp.term)
    else if resp.term != n.term || !resp.granted then
      n
    else
      var c := n.(votes := n.votes + {from});
      if VotesAccepted(Stable(cfg.servers), c.votes) then BecomeLeader(cfg, c) else c
  }

  function Noop(n: Node): LogEntry {
    LogEntry(n.term, |n.log| + 1, ENTRY_NORMAL, [])
  }

  function Trackers(cfg: Config, start: nat): map<ServerId, nat> {
    map p | p in Members(cfg.servers) - {cfg.id} :: start
  }

  /** Leadership with a fresh tracker for every other server, learners included. */
  function Installed(cfg: Config, n: Node): Node {
    n.(role := Leader, leaderId := cfg.id, transferring := false,
       nextIndex := Trackers(cfg, |n.log| + 1), matchIndex := Trackers(cfg, 0))
  }

  function BecomeLeader(cfg: Config, n: Node): Node {
    var l := Installed(cfg, n).(log := n.log + [Noop(n)]);
    if QuorumSize(cfg.servers) == 1 then AdvanceCommit(cfg, l) else l
  }

  /** LastLogTerm and LastLogIndex against the receiver's log. */
  predicate LogOk(req: VoteReq, log: Log) {
    req.lastTerm > LastTerm(log) || (req.lastTerm == LastTerm(log) && req.lastIndex >= |log|)
  }

  predicate HeardFromLeader(n: Node) {
    n.electionTicks > 0 && n.leaderId != ""
  }

  /** `durable` says whether persisting the vote succeeded; `ticks` is the new random timeout. */
  function HandleVote(cfg: Config, n: Node, req: VoteReq, durable: bool, ticks: int): (Node, VoteResp) {
    if req.preVote then
      (n, VoteResp(n.term, req.term >= n.term && !HeardFromLeader(n) && LogOk(req, n.log)))
    else if req.term < n.term then
      (n, VoteResp(n.term, false))
    else if cfg.checkQuorum && !req.transfer && HeardFromLeader(n) then
      (n, VoteResp(n.term, false))
    else
      Decide(if req.term > n.term then Adopt(n, req.term) else n, req, durable, ticks, VoteResp(n.term, false))
  }

  /** The vote itself, in the request's term: one candidate per term, and only one whose log is
      at least as up to date. */
  function Decide(m: Node, req: VoteReq, durable: bool, ticks: int, refused: VoteResp): (Node, VoteResp) {
    if (m.votedFor != "" && m.votedFor != req.candidate) || !LogOk(req, m.log) then
      (m, refused)
    else if !durable then
      (m, VoteResp(m.term, false))
    else
      (m.(votedFor := req.candidate, electionTicks := ticks), VoteResp(m.term, true))
  }

  /** The leader relinquishes leadership when too few voters acknowledged it recently; term and
      vote stay. */
  function CheckQuorum(cfg: Config, n: Node, recent: set<ServerId>, ticks: int): Node {
    var quorum := QuorumSize(cfg.servers);
    if !cfg.checkQuorum || n.role != Leader || quorum <= 1 || 1 + |recent * Voters(cfg.servers)| >= quorum then
      n
    else
      n.(role := Follower, leaderId := "", electionTicks := ticks, transferring := false)
  }

  // ---------------------------------------------------------------------------
  // Replication

  /** The request for a peer carries `count` entries from its nextIndex on. The source stops at
      100 entries or the configured message size; every count is possible here. */
  function BuildAppend(cfg: Config, n: Node, peer: ServerId, count: nat): AppendReq
    requires peer in n.nextIndex && 1 <= n.nextIndex[peer] && n.nextIndex[peer] - 1 + count <= |n.log|
  {
    var prev := n.nextIndex[peer] - 1;
    AppendReq(n.term, cfg.id, prev, if prev > 0 then n.log[prev - 1].term else 0,
              n.log[prev..prev + count], n.commitIndex)
  }

  /** First index of the run of equal terms that ends at index i. */
  function RunStart(log: Log, i: nat): (r: nat)
    requires 1 <= i <= |log|
    ensures 1 <= r <= i
  {
    if i > 1 && log[i - 2].term == log[i - 1].term then RunStart(log, i - 1) else i
  }

  predicate Present(log: Log, e: LogEntry) {
    1 <= e.index <= |log| && log[e.index - 1].term == e.term
  }

  /** Position of the first entry the log does not already hold with the same term. */
  function FirstNew(log: Log, es: Log): (r: nat)
    ensures r <= |es|
    ensures forall j :: 0 <= j < r ==> Present(log, es[j])
    ensures r < |es| ==> !Present(log, es[r])
  {
    if es == [] || !Present(log, es[0]) then 0 else 1 + FirstNew(log, es[1..])
  }

  predicate Consecutive(es: Log, first: nat) {
    forall i :: 0 <= i < |es| ==> es[i].index == first + i
  }

  function Min(a: nat, b: nat): nat {
    if a < b then a else b
  }

  function Truncated(n: Node, i: nat): Node
    requires i <= |n.log|
  {
    n.(log := n.log[..i], commitIndex := Min(n.commitIndex, i))
  }

  /** Accepting a request of the current or a later term, before the log is looked at. */
  function Heed(cfg: Config, n: Node, req: AppendReq, ticks: int): Node {
    var m := if req.term > n.term then Adopt(n, req.term) else n;
    m.(role := if m.role == Candidate then Follower else m.role, leaderId := req.leaderId,
       electionTicks := ticks, transferring := n.transferring && req.leaderId == cfg.id)
  }

  function HandleAppend(cfg: Config, n: Node, req: AppendReq, ticks: int): (Node, AppendResp) {
    if req.term < n.term then
      (n, AppendResp(n.term, false, 0, 0))
    else
      CheckAndStore(Heed(cfg, n, req, ticks), req, AppendResp(n.term, false, 0, 0))
  }

  /** The log consistency check, with the hints a refusal carries. A refusal still quotes the
      term from before the request was heeded. */
  function CheckAndStore(m: Node, req: AppendReq, refused: AppendResp): (Node, AppendResp) {
    if req.prevIndex > |m.log| then
      (m, refused.(index := |m.log| + 1))
    else if req.prevIndex > 0 && m.log[req.prevIndex - 1].term != req.prevTerm then
      (m, refused.(index := RunStart(m.log, req.prevIndex), conflictTerm := m.log[req.prevIndex - 1].term))
    else
      Store(m, req, refused)
  }

  function LastCovered(req: AppendReq): nat {
    if req.entries == [] then req.prevIndex else req.entries[|req.entries| - 1].index
  }

  /** The consistency check passed: append what is new, cutting a conflicting suffix first but
      never a committed entry, then follow the leader's commit index as far as the request reaches. */
  function Store(m: Node, req: AppendReq, refused: AppendResp): (Node, AppendResp) {
    StoreFrom(m, req, FirstNew(m.log, req.entries), refused)
  }

  function StoreFrom(m: Node, req: AppendReq, i: nat, refused: AppendResp): (Node, AppendResp)
    requires i <= |req.entries|
  {
    if i == |req.entries| then Stored(m, req) else StoreRest(m, req, req.entries[i..], refused)
  }

  function StoreRest(m: Node, req: AppendReq, rest: Log, refused: AppendResp): (Node, AppendResp)
    requires rest != []
  {
    var clash := 1 <= rest[0].index <= |m.log|;
    if clash && rest[0].index <= m.commitIndex then
      (m, refused.(index := m.commitIndex + 1))
    else
      var cut := if clash then Truncated(m, rest[0].index - 1) else m;
      if !Consecutive(rest, |cut.log| + 1) then (cut, refused) else Stored(cut.(log := cut.log + rest), req)
  }

  function Stored(m: Node, req: AppendReq): (Node, AppendResp) {
    var c := if req.leaderCommit > m.commitIndex then Min(req.leaderCommit, LastCovered(req)) else m.commitIndex;
    (m.(commitIndex := c), AppendResp(m.term, true, |m.log|, 0))
  }

  /** Highest index holding the given term, scanning down and giving up below it; 0 if none. */
  function LastIndexOfTerm(log: Log, t: nat, i: nat): (r: nat)
    requires i <= |log|
    ensures r <= i
    ensures r > 0 ==> log[r - 1].term == t
  {
    if i == 0 || log[i - 1].term < t then 0 else if log[i - 1].term == t then i else LastIndexOfTerm(log, t, i - 1)
  }

  /** The leader's next index for a peer that refused: the conflict hints when they lower it,
      one step down otherwise. */
  function BackedOff(log: Log, next: nat, resp: AppendResp): nat {
    var last := LastIndexOfTerm(log, resp.conflictTerm, |log|);
    var hinted :=
      if resp.conflictTerm > 0 then
        if last > 0 then last + 1 else if resp.index > 0 then resp.index else next
      else if resp.index > 0 then resp.index
      else if next > 1 then next - 1 else next;
    var wanted := if hinted < 1 then 1 else hinted;
    if wanted < next then wanted else if next > 1 then next - 1 else next
  }

  /** The leader's bookkeeping after a success for entries up to lastSent. */
  function Tracked(n: Node, peer: ServerId, lastSent: nat): Node {
    var known := AtLeast(n.matchIndex, peer);
    if lastSent == 0 then n else
      n.(matchIndex := if lastSent > known then n.matchIndex[peer := lastSent] else n.matchIndex,
         nextIndex := n.nextIndex[peer := (if lastSent > known then lastSent else known) + 1])
  }

  /** `reqTerm` and `lastSent` were captured when the request went out; lastSent is 0 for a heartbeat. */
  function OnAppendReply(cfg: Config, n: Node, peer: ServerId, resp: AppendResp, reqTerm: nat, lastSent: nat): Node {
    if n.role != Leader then
      n
    else if resp.term > n.term then
      Adopt(n, resp.term).(leaderId := "")
    else if resp.term != n.term || reqTerm != n.term then
      n
    else if resp.success then
      AdvanceCommit(cfg, Tracked(n, peer, lastSent))
    else if peer in n.nextIndex then
      n.(nextIndex := n.nextIndex[peer := BackedOff(n.log, n.nextIndex[peer], resp)])
    else n
  }

  /** Servers known to hold index idx: the leader and every peer matched that far. */
  function KnownHolders(cfg: Config, n: Node, idx: nat): set<ServerId> {
    {cfg.id} + set p | p in n.matchIndex && n.matchIndex[p] >= idx
  }

  predicate Committable(cfg: Config, n: Node, idx: nat) {
    && 1 <= idx <= |n.log| && n.log[idx - 1].term == n.term
    && ReplicationAccepted(Stable(cfg.servers), KnownHolders(cfg, n, idx))
  }

  /** The highest committable index above the commit index, which stays put without one. */
  function CommitPoint(cfg: Config, n: Node, idx: nat, best: nat): (r: nat)
    requires 1 <= idx <= |n.log| + 1
    ensures r == best || (idx <= r && Committable(cfg, n, r))
    ensures forall j :: idx <= j <= |n.log| && Committable(cfg, n, j) ==> j <= r
    decreases |n.log| - idx
  {
    if idx > |n.log| then best else CommitPoint(cfg, n, idx + 1, if Committable(cfg, n, idx) then idx else best)
  }

  function AdvanceCommit(cfg: Config, n: Node): Node {
    if n.commitIndex > |n.log| then n else n.(commitIndex := CommitPoint(cfg, n, n.commitIndex + 1, n.commitIndex))
  }

  // ---------------------------------------------------------------------------
  // Proposals and applying

  function NewEntries(term: nat, last: nat, batch: seq<seq<byte>>): (es: Log)
    ensures |es| == |batch|
    ensures forall i :: 0 <= i < |es| ==> es[i] == LogEntry(term, last + 1 + i, ENTRY_NORMAL, batch[i])
  {
    seq(|batch|, i requires 0 <= i < |batch| => LogEntry(term, last + 1 + i, ENTRY_NORMAL, batch[i]))
  }

  /** `batch` is what is left of the proposals after the busy check. */
  function Propose(cfg: Config, n: Node, batch: seq<seq<byte>>): Node {
    if n.role != Leader || n.transferring || batch == [] then
      n
    else
      var m := n.(log := n.log + NewEntries(n.term, |n.log|, batch));
      if QuorumSize(cfg.servers) == 1 then m.(commitIndex := |m.log|) else m
  }
}
