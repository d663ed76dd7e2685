/** The two halves together: the store each server of a run builds from the entries it applies
    (pkg/raft/raft.go:1754-1840, pkg/fsm/kv.go:191-198, 1238-1296). */
module ReplicatedStore {
  import opened LogTypes
  import opened Membership
  import opened RaftNode
  import opened RaftProtocol
  import opened RaftRefinement
  import opened RaftTheorems
  import KvModel
  import KvCommandCodec

  // ---------------------------------------------------------------------------
  // Reading entries

  /** How a payload in the JSON form reads; the binary form is decoded by KvCommandCodec. */
  type JsonReader = seq<byte> -> Option<KvModel.Command>

  /** The command an applied entry hands to the store. Entries of another type, empty ones and ones
      that do not decode hand it none. */
  function Read(json: JsonReader, e: LogEntry): Option<KvModel.Command> {
    if e.kind != ENTRY_NORMAL || e.data == [] then None
    else
      match KvCommandCodec.Decode(e.data)
      case Decoded(w) => Some(KvCommandCodec.FromWire(w))
      case Corrupt => None
      case JsonForm => json(e.data)
  }

  function Commands(json: JsonReader, es: Log): seq<KvModel.Command> {
    if es == [] then []
    else
      var front := Commands(json, es[..|es| - 1]);
      match Read(json, es[|es| - 1])
      case None => front
      case Some(cmd) => front + [cmd]
  }

  /** A command a client sent in the binary form is the command every server applies for its entry. */
  lemma SentIsRead(json: JsonReader, e: LogEntry, cmd: KvModel.Command)
    requires cmd.txn == None && !cmd.returnPrev && KvCommandCodec.Fits(KvCommandCodec.ToWire(cmd))
    requires e.kind == ENTRY_NORMAL && e.data == KvCommandCodec.WireBytes(KvCommandCodec.ToWire(cmd))
    ensures Read(json, e) == Some(cmd)
  {
    KvCommandCodec.CommandRoundTrip(cmd);
  }

  /** No-ops and configuration entries are no commands, and a payload that does not begin with the format
      byte 1 is JSON. */
  lemma OtherEntries(json: JsonReader, e: LogEntry)
    ensures e.kind != 0 || e.data == [] ==> Read(json, e) == None
    ensures e.kind == 0 && e.data != [] && e.data[0] != 1 ==> Read(json, e) == json(e.data)
  {
  }

  // ---------------------------------------------------------------------------
  // The state machine of one server along a run

  /** What a server's state machine has been handed since the server last started, the store it has
      built and the results it has returned. */
  datatype Replica = Replica(entries: Log, store: KvModel.Store, replies: seq<seq<byte>>)

  const NEW_REPLICA := Replica([], KvModel.EMPTY_STORE, [])

  ghost function Fed(render: KvModel.Render, json: JsonReader, r: Replica, e: LogEntry): Replica {
    match Read(json, e)
    case None => r.(entries := r.entries + [e])
    case Some(cmd) =>
      var (store, reply) := KvModel.Apply(render, r.store, cmd);
      Replica(r.entries + [e], store, r.replies + [reply])
  }

  predicate Applies(s: Sys, a: Action, n: ServerId) {
    a == ApplyNext(n) && n in s.nodes && s.nodes[n].applyIndex < |s.nodes[n].log|
  }

  predicate Restarts(a: Action, n: ServerId) {
    a.Restart? && a.n == n
  }

  /** Applying an entry feeds it to the state machine; a restart begins with an empty one. */
  ghost function Reacted(render: KvModel.Render, json: JsonReader, s: Sys, a: Action, n: ServerId, r: Replica): Replica {
    if Applies(s, a, n) then Fed(render, json, r, s.nodes[n].log[s.nodes[n].applyIndex])
    else if Restarts(a, n) then NEW_REPLICA
    else r
  }

  /** The state machine of server n at moment k of a run. */
  ghost function ReplicaAt(render: KvModel.Render, json: JsonReader, run: seq<Sys>, acts: seq<Action>, k: nat, n: ServerId): Replica
    requires k <= |acts| < |run|
    decreases k
  {
    if k == 0 then NEW_REPLICA
    else Reacted(render, json, run[k - 1], acts[k - 1], n, ReplicaAt(render, json, run, acts, k - 1, n))
  }

  /** A replica is what replaying its entries from the empty store gives. */
  ghost predicate Replayed(render: KvModel.Render, json: JsonReader, r: Replica) {
    && r.store == KvModel.ApplyAll(render, KvModel.EMPTY_STORE, Commands(json, r.entries))
    && r.replies == KvModel.Replies(render, KvModel.EMPTY_STORE, Commands(json, r.entries))
  }

  lemma FedReplayed(render: KvModel.Render, json: JsonReader, r: Replica, e: LogEntry)
    requires Replayed(render, json, r)
    ensures Replayed(render, json, Fed(render, json, r, e))
  {
    var es := r.entries + [e];
    assert es[..|es| - 1] == r.entries;
    if Read(json, e).Some? {
      var cmds := Commands(json, es);
      assert cmds[..|cmds| - 1] == Commands(json, r.entries);
    }
  }

  lemma {:induction false} AlwaysReplayed(render: KvModel.Render, json: JsonReader, run: seq<Sys>, acts: seq<Action>, k: nat, n: ServerId)
    requires k <= |acts| < |run|
    ensures Replayed(render, json, ReplicaAt(render, json, run, acts, k, n))
    decreases k
  {
    if k > 0 {
      AlwaysReplayed(render, json, run, acts, k - 1, n);
      if Applies(run[k - 1], acts[k - 1], n) {
        var me := run[k - 1].nodes[n];
        FedReplayed(render, json, ReplicaAt(render, json, run, acts, k - 1, n), me.log[me.applyIndex]);
      }
    }
  }

  // ---------------------------------------------------------------------------
  // What has been applied is the log up to the apply index

  lemma InstallingKeepsApplyIndex(cfg: Config, n: Node)
    ensures BecomeLeader(cfg, n).applyIndex == n.applyIndex && AdvanceCommit(cfg, n).applyIndex == n.applyIndex
  {
  }

  lemma CampaignsKeepApplyIndex(cfg: Config, n: Node, already: bool, transfer: bool)
    ensures StartElection(cfg, n, already, transfer).0.applyIndex == n.applyIndex
  {
    InstallingKeepsApplyIndex(cfg, Campaigner(cfg, n));
  }

  lemma VoteRepliesKeepApplyIndex(cfg: Config, n: Node, from: ServerId, resp: VoteResp)
    ensures OnPreVoteReply(cfg, n, from, resp).0.applyIndex == n.applyIndex
    ensures OnVoteReply(cfg, n, from, resp).applyIndex == n.applyIndex
  {
    CampaignsKeepApplyIndex(cfg, n.(preVotes := n.preVotes + {from}), true, false);
    InstallingKeepsApplyIndex(cfg, n.(votes := n.votes + {from}));
  }

  lemma AppendRepliesKeepApplyIndex(cfg: Config, n: Node, peer: ServerId, resp: AppendResp, reqTerm: nat, lastSent: nat)
    ensures OnAppendReply(cfg, n, peer, resp, reqTerm, lastSent).applyIndex == n.applyIndex
  {
  }

  lemma StoringKeepsApplyIndex(m: Node, req: AppendReq, refused: AppendResp)
    ensures CheckAndStore(m, req, refused).0.applyIndex == m.applyIndex
  {
  }

  /** What a step does to server n's apply index and to the record of applied entries. */
  ghost predicate Moved(s: Sys, a: Action, s': Sys, n: ServerId) {
    && n in s.nodes && n in s'.nodes && s.applied <= s'.applied
    && (a == ApplyNext(n) ==> Applies(s, a, n) && AppliedOne(s.nodes[n], s'.nodes[n], n, s'.applied))
    && (Restarts(a, n) ==> s'.nodes[n].applyIndex == 0)
    && (a != ApplyNext(n) && !Restarts(a, n) ==> s'.nodes[n].applyIndex == s.nodes[n].applyIndex)
  }

  ghost predicate AppliedOne(me: Node, m: Node, n: ServerId, applied: set<(ServerId, nat, LogEntry)>) {
    && me.applyIndex < |me.log| && m.applyIndex == me.applyIndex + 1
    && (n, m.applyIndex, me.log[me.applyIndex]) in applied
  }

  lemma UpdateMoves(s: Sys, a: Action, actor: ServerId, m: Node, sent: set<Packet>, n: ServerId)
    requires n in s.nodes && actor in s.nodes && m.applyIndex == s.nodes[actor].applyIndex && !a.ApplyNext? && !a.Restart?
    ensures Moved(s, a, Updated(s, actor, m, sent), n)
  {
  }

  lemma ElectionMoves(s: Sys, a: Action, n: ServerId)
    requires Enabled(s, a) && n in s.nodes && (a.Timeout? || a.TimeoutNow? || a.DeliverVote?)
    ensures Moved(s, a, Act(s, a), n)
  {
    var cfg, me := Cfg(s, Actor(a)), s.nodes[Actor(a)];
    match a
    case Timeout(_) =>
      CampaignsKeepApplyIndex(cfg, me, false, false);
      var (m, req) := StartElection(cfg, me, false, false);
      UpdateMoves(s, a, a.n, m, Broadcast(s, a.n, req), n);
    case TimeoutNow(_) =>
      CampaignsKeepApplyIndex(cfg, me, true, true);
      var (m, req) := StartElection(cfg, me, true, true);
      UpdateMoves(s, a, a.n, m, Broadcast(s, a.n, req), n);
    case DeliverVote(p, durable, ticks) =>
      var (m, resp) := HandleVote(cfg, me, p.vote, durable, ticks);
      UpdateMoves(s, a, p.dst, m, {VoteReply(p.dst, p.src, p.vote.preVote, resp)}, n);
  }

  lemma VoteReplyMoves(s: Sys, p: Packet, n: ServerId)
    requires Enabled(s, DeliverVoteReply(p)) && n in s.nodes
    ensures Moved(s, DeliverVoteReply(p), Act(s, DeliverVoteReply(p)), n)
  {
    var cfg, me := Cfg(s, p.dst), s.nodes[p.dst];
    VoteRepliesKeepApplyIndex(cfg, me, p.src, p.voteResp);
    if p.preVote {
      var (m, req) := OnPreVoteReply(cfg, me, p.src, p.voteResp);
      UpdateMoves(s, DeliverVoteReply(p), p.dst, m, Broadcast(s, p.dst, req), n);
    } else {
      UpdateMoves(s, DeliverVoteReply(p), p.dst, OnVoteReply(cfg, me, p.src, p.voteResp), {}, n);
    }
  }

  lemma AppendMoves(s: Sys, p: Packet, ticks: int, n: ServerId)
    requires Enabled(s, DeliverAppend(p, ticks)) && n in s.nodes
    ensures Moved(s, DeliverAppend(p, ticks), Act(s, DeliverAppend(p, ticks)), n)
  {
    var cfg, me := Cfg(s, p.dst), s.nodes[p.dst];
    StoringKeepsApplyIndex(Heed(cfg, me, p.append, ticks), p.append, AppendResp(me.term, false, 0, 0));
    var (m, resp) := HandleAppend(cfg, me, p.append, ticks);
    UpdateMoves(s, DeliverAppend(p, ticks), p.dst, m, {AppendReply(p.dst, p.src, resp, p.append.term, LastSent(p.append))}, n);
  }

  lemma AppendReplyMoves(s: Sys, p: Packet, n: ServerId)
    requires Enabled(s, DeliverAppendReply(p)) && n in s.nodes
    ensures Moved(s, DeliverAppendReply(p), Act(s, DeliverAppendReply(p)), n)
  {
    var cfg, me := Cfg(s, p.dst), s.nodes[p.dst];
    AppendRepliesKeepApplyIndex(cfg, me, p.src, p.appendResp, p.reqTerm, p.lastSent);
    UpdateMoves(s, DeliverAppendReply(p), p.dst, OnAppendReply(cfg, me, p.src, p.appendResp, p.reqTerm, p.lastSent), {}, n);
  }

  lemma LeaderMoves(s: Sys, a: Action, n: ServerId)
    requires Enabled(s, a) && n in s.nodes && (a.SendAppend? || a.ClientBatch? || a.QuorumCheck?)
    ensures Moved(s, a, Act(s, a), n)
  {
    var cfg, me := Cfg(s, a.n), s.nodes[a.n];
    match a
    case SendAppend(_, peer, count) => UpdateMoves(s, a, a.n, me, {AppendCall(a.n, peer, BuildAppend(cfg, me, peer, count))}, n);
    case ClientBatch(_, batch) => UpdateMoves(s, a, a.n, Propose(cfg, me, batch), {}, n);
    case QuorumCheck(_, recent, ticks) => UpdateMoves(s, a, a.n, CheckQuorum(cfg, me, recent, ticks), {}, n);
  }

  lemma LocalMoves(s: Sys, a: Action, n: ServerId)
    requires Enabled(s, a) && n in s.nodes
    requires a.SetTimer? || a.BeginTransfer? || a.FlushCommit? || a.ReadCommit? || a.ApplyNext? || a.Restart?
    ensures Moved(s, a, Act(s, a), n)
  {
  }

  /** Only applying and restarting move a server's apply index. */
  lemma ActMoves(s: Sys, a: Action, n: ServerId)
    requires Enabled(s, a) && n in s.nodes
    ensures Moved(s, a, Act(s, a), n)
  {
    match a
    case Timeout(_) => ElectionMoves(s, a, n);
    case TimeoutNow(_) => ElectionMoves(s, a, n);
    case DeliverVote(_, _, _) => ElectionMoves(s, a, n);
    case DeliverVoteReply(p) => VoteReplyMoves(s, p, n);
    case SendAppend(_, _, _) => LeaderMoves(s, a, n);
    case DeliverAppend(p, ticks) => AppendMoves(s, p, ticks, n);
    case DeliverAppendReply(p) => AppendReplyMoves(s, p, n);
    case ClientBatch(_, _) => LeaderMoves(s, a, n);
    case QuorumCheck(_, _, _) => LeaderMoves(s, a, n);
    case _ => LocalMoves(s, a, n);
  }

  /** The steps of a run as server n's state machine sees them. */
  ghost predicate Followed(run: seq<Sys>, acts: seq<Action>, n: ServerId) {
    && |run| == |acts| + 1
    && n in run[0].nodes && run[0].nodes[n].applyIndex == 0
    && forall k :: 0 <= k < |acts| ==> Moved(run[k], acts[k], run[k + 1], n)
  }

  lemma {:induction false} ServerStays(run: seq<Sys>, acts: seq<Action>, k: nat, n: ServerId)
    requires IsRun(run, acts) && k < |run| && n in run[0].nodes
    ensures n in run[k].nodes
    decreases k
  {
    if k > 0 {
      ServerStays(run, acts, k - 1, n);
      ActMoves(run[k - 1], acts[k - 1], n);
    }
  }

  lemma RunFollowed(run: seq<Sys>, acts: seq<Action>, n: ServerId)
    requires IsRun(run, acts) && n in run[0].nodes
    ensures Followed(run, acts, n)
  {
    forall k | 0 <= k < |acts| ensures Moved(run[k], acts[k], run[k + 1], n) {
      ServerStays(run, acts, k, n);
      ActMoves(run[k], acts[k], n);
    }
  }

  /** The first entries of server n's log are the ones it was handed, and are on record as applied. */
  ghost predicate InStep(s: Sys, n: ServerId, es: Log) {
    && n in s.nodes && s.nodes[n].applyIndex == |es| && es <= s.nodes[n].log
    && OnRecord(s, n, es)
  }

  ghost predicate OnRecord(s: Sys, n: ServerId, es: Log) {
    forall i: nat :: i < |es| ==> (n, i + 1, es[i]) in s.applied
  }

  lemma RecordInLog(s: Sys, g: Shadow, n: ServerId, es: Log)
    requires Tracks(s, g) && n in s.nodes && OnRecord(s, n, es)
    ensures es <= s.nodes[n].log
  {
    if es != [] {
      AppliedRecorded(s, g, (n, |es|, es[|es| - 1]));
    }
    forall i: nat | i < |es| ensures i < |s.nodes[n].log| && es[i] == s.nodes[n].log[i] {
      AppliedRecorded(s, g, (n, i + 1, es[i]));
    }
  }

  lemma StaysInStep(s: Sys, a: Action, s': Sys, g': Shadow, n: ServerId, es: Log)
    requires Moved(s, a, s', n) && Tracks(s', g') && InStep(s, n, es)
    requires a != ApplyNext(n) && !Restarts(a, n)
    ensures InStep(s', n, es)
  {
    RecordInLog(s', g', n, es);
  }

  lemma ApplyStaysInStep(s: Sys, s': Sys, g': Shadow, n: ServerId, es: Log)
    requires Moved(s, ApplyNext(n), s', n) && Tracks(s', g') && InStep(s, n, es)
    ensures InStep(s', n, es + [s.nodes[n].log[s.nodes[n].applyIndex]])
  {
    RecordInLog(s', g', n, es + [s.nodes[n].log[s.nodes[n].applyIndex]]);
  }

  lemma StepInStep(render: KvModel.Render, json: JsonReader, s: Sys, a: Action, s': Sys, g': Shadow, n: ServerId, r: Replica)
    requires Moved(s, a, s', n) && Tracks(s', g') && InStep(s, n, r.entries)
    ensures InStep(s', n, Reacted(render, json, s, a, n, r).entries)
  {
    if a == ApplyNext(n) {
      ApplyStaysInStep(s, s', g', n, r.entries);
    } else if !Restarts(a, n) {
      StaysInStep(s, a, s', g', n, r.entries);
    }
  }

  lemma {:induction false} AlwaysInStep(render: KvModel.Render, json: JsonReader, run: seq<Sys>, acts: seq<Action>, gs: seq<Shadow>,
                                        k: nat, n: ServerId)
    requires Followed(run, acts, n) && |gs| == |run| && k < |run|
    requires forall i :: 0 <= i < |run| ==> Tracks(run[i], gs[i])
    ensures InStep(run[k], n, ReplicaAt(render, json, run, acts, k, n).entries)
    decreases k
  {
    if k > 0 {
      AlwaysInStep(render, json, run, acts, gs, k - 1, n);
      assert Moved(run[k - 1], acts[k - 1], run[k - 1 + 1], n);
      StepInStep(render, json, run[k - 1], acts[k - 1], run[k], gs[k], n, ReplicaAt(render, json, run, acts, k - 1, n));
    }
  }

  lemma InStepAt(render: KvModel.Render, json: JsonReader, run: seq<Sys>, acts: seq<Action>, k: nat, n: ServerId)
    requires IsRun(run, acts) && k < |run| && n in run[0].nodes
    ensures InStep(run[k], n, ReplicaAt(render, json, run, acts, k, n).entries)
  {
    var gs := RunHasShadows(run, acts);
    RunFollowed(run, acts, n);
    AlwaysInStep(render, json, run, acts, gs, k, n);
  }

  /** In every run, at every moment, a server with apply index i has handed its state machine exactly
      the first i entries of its log since it last started, in order; its store and the results it
      returned are those of replaying their commands from the empty store. */
  lemma ReplicaIsLogPrefix(render: KvModel.Render, json: JsonReader, run: seq<Sys>, acts: seq<Action>, k: nat, n: ServerId)
    requires IsRun(run, acts) && k < |run| && n in run[0].nodes
    ensures n in run[k].nodes && run[k].nodes[n].applyIndex <= |run[k].nodes[n].log|
    ensures var r := ReplicaAt(render, json, run, acts, k, n);
            var es := run[k].nodes[n].log[..run[k].nodes[n].applyIndex];
            && r.entries == es
            && r.store == KvModel.ApplyAll(render, KvModel.EMPTY_STORE, Commands(json, es))
            && r.replies == KvModel.Replies(render, KvModel.EMPTY_STORE, Commands(json, es))
  {
    InStepAt(render, json, run, acts, k, n);
    AlwaysReplayed(render, json, run, acts, k, n);
  }

  // ---------------------------------------------------------------------------
  // Agreement

  lemma RecordsAgree(run: seq<Sys>, acts: seq<Action>, j: nat, k: nat, n: ServerId, m: ServerId, a: Log, b: Log)
    requires IsRun(run, acts) && j < |run| && k < |run| && |a| <= |b|
    requires OnRecord(run[j], n, a) && OnRecord(run[k], m, b)
    ensures a <= b
  {
    forall i: nat | i < |a| ensures a[i] == b[i] {
      StateMachineSafetyTheorem(run, acts, j, k, (n, i + 1, a[i]), (m, i + 1, b[i]));
    }
  }

  /** Of two servers, at any two moments of a run, the one that has applied less was handed a prefix of
      what the other was. */
  lemma EntriesAgree(render: KvModel.Render, json: JsonReader, run: seq<Sys>, acts: seq<Action>, j: nat, k: nat, n: ServerId, m: ServerId)
    requires IsRun(run, acts) && j < |run| && k < |run| && n in run[0].nodes && m in run[0].nodes
    ensures n in run[j].nodes && m in run[k].nodes
    ensures run[j].nodes[n].applyIndex <= run[k].nodes[m].applyIndex ==>
              ReplicaAt(render, json, run, acts, j, n).entries <= ReplicaAt(render, json, run, acts, k, m).entries
  {
    InStepAt(render, json, run, acts, j, n);
    InStepAt(render, json, run, acts, k, m);
    var a, b := ReplicaAt(render, json, run, acts, j, n).entries, ReplicaAt(render, json, run, acts, k, m).entries;
    if |a| <= |b| {
      RecordsAgree(run, acts, j, k, n, m, a, b);
    }
  }

  lemma SameReplay(render: KvModel.Render, json: JsonReader, r: Replica, q: Replica)
    requires Replayed(render, json, r) && Replayed(render, json, q) && r.entries <= q.entries <= r.entries
    ensures r == q
  {
    assert r.entries == q.entries;
  }

  /** Two servers at the same apply index, whichever they are and whenever they reach it, hold the same
      store and have returned the same results. */
  lemma ReplicasAgree(render: KvModel.Render, json: JsonReader, run: seq<Sys>, acts: seq<Action>, j: nat, k: nat, n: ServerId, m: ServerId)
    requires IsRun(run, acts) && j < |run| && k < |run| && n in run[0].nodes && m in run[0].nodes
    requires n in run[j].nodes && m in run[k].nodes && run[j].nodes[n].applyIndex == run[k].nodes[m].applyIndex
    ensures ReplicaAt(render, json, run, acts, j, n) == ReplicaAt(render, json, run, acts, k, m)
  {
    EntriesAgree(render, json, run, acts, j, k, n, m);
    EntriesAgree(render, json, run, acts, k, j, m, n);
    AlwaysReplayed(render, json, run, acts, j, n);
    AlwaysReplayed(render, json, run, acts, k, m);
    SameReplay(render, json, ReplicaAt(render, json, run, acts, j, n), ReplicaAt(render, json, run, acts, k, m));
  }

  lemma {:induction false} CommandsSplit(json: JsonReader, a: Log, b: Log)
    ensures Commands(json, a + b) == Commands(json, a) + Commands(json, b)
  {
    if b == [] {
      assert a + b == a;
    } else {
      CommandsSplit(json, a, b[..|b| - 1]);
      assert (a + b)[..|a + b| - 1] == a + b[..|b| - 1];
    }
  }

  lemma ReplayOne(render: KvModel.Render, s: KvModel.Store, a: seq<KvModel.Command>, c: KvModel.Command)
    ensures KvModel.ApplyAll(render, s, a + [c]) == KvModel.Apply(render, KvModel.ApplyAll(render, s, a), c).0
    ensures KvModel.Replies(render, s, a + [c]) == KvModel.Replies(render, s, a) + [KvModel.Apply(render, KvModel.ApplyAll(render, s, a), c).1]
  {
    assert (a + [c])[..|a + [c]| - 1] == a;
  }

  /** One more command, from the same store, gives the same store and the same result. */
  lemma SameNext(render: KvModel.Render, s: KvModel.Store, a: seq<KvModel.Command>, t: KvModel.Store, b: seq<KvModel.Command>,
                 c: KvModel.Command) returns (out: seq<byte>)
    requires KvModel.ApplyAll(render, s, a) == KvModel.ApplyAll(render, t, b)
    ensures KvModel.ApplyAll(render, s, a + [c]) == KvModel.ApplyAll(render, t, b + [c])
    ensures KvModel.Replies(render, s, a + [c]) == KvModel.Replies(render, s, a) + [out]
    ensures KvModel.Replies(render, t, b + [c]) == KvModel.Replies(render, t, b) + [out]
  {
    ReplayOne(render, s, a, c);
    ReplayOne(render, t, b, c);
    out := KvModel.Apply(render, KvModel.ApplyAll(render, s, a), c).1;
  }

  /** Replaying ab from s is replaying a, which leads to t, and then b. */
  ghost predicate Splits(render: KvModel.Render, s: KvModel.Store, a: seq<KvModel.Command>, t: KvModel.Store, b: seq<KvModel.Command>,
                         ab: seq<KvModel.Command>) {
    && KvModel.ApplyAll(render, s, ab) == KvModel.ApplyAll(render, t, b)
    && KvModel.Replies(render, s, ab) == KvModel.Replies(render, s, a) + KvModel.Replies(render, t, b)
  }

  lemma RepliesJoin(whole: seq<seq<byte>>, ra: seq<seq<byte>>, rb: seq<seq<byte>>, out: seq<byte>)
    requires whole == ra + rb
    ensures whole + [out] == ra + (rb + [out])
  {
  }

  lemma SplitsLater(render: KvModel.Render, s: KvModel.Store, a: seq<KvModel.Command>, t: KvModel.Store, b: seq<KvModel.Command>,
                    ab: seq<KvModel.Command>, c: KvModel.Command)
    requires Splits(render, s, a, t, b, ab)
    ensures Splits(render, s, a, t, b + [c], ab + [c])
  {
    var out := SameNext(render, s, ab, t, b, c);
    RepliesJoin(KvModel.Replies(render, s, ab), KvModel.Replies(render, s, a), KvModel.Replies(render, t, b), out);
  }

  lemma {:induction false} ReplaySplit(render: KvModel.Render, s: KvModel.Store, a: seq<KvModel.Command>, t: KvModel.Store, b: seq<KvModel.Command>)
    requires t == KvModel.ApplyAll(render, s, a)
    ensures Splits(render, s, a, t, b, a + b)
    decreases |b|
  {
    if b == [] {
      assert a + b == a;
    } else {
      var front, c := b[..|b| - 1], b[|b| - 1];
      ReplaySplit(render, s, a, t, front);
      SplitsLater(render, s, a, t, front, a + front, c);
      assert front + [c] == b && (a + front) + [c] == a + b;
    }
  }

  ghost predicate CatchesUp(render: KvModel.Render, json: JsonReader, r: Replica, q: Replica) {
    && r.entries <= q.entries
    && var missing := Commands(json, q.entries[|r.entries|..]);
       && q.store == KvModel.ApplyAll(render, r.store, missing)
       && q.replies == r.replies + KvModel.Replies(render, r.store, missing)
  }

  lemma Lagging(render: KvModel.Render, json: JsonReader, r: Replica, q: Replica)
    requires Replayed(render, json, r) && Replayed(render, json, q) && r.entries <= q.entries
    ensures CatchesUp(render, json, r, q)
  {
    var rest := q.entries[|r.entries|..];
    assert q.entries == r.entries + rest;
    CommandsSplit(json, r.entries, rest);
    ReplaySplit(render, KvModel.EMPTY_STORE, Commands(json, r.entries), r.store, Commands(json, rest));
  }

  /** A server that lags behind another holds a store the other one also went through: what it still has
      to apply takes it from its own store to the other's. */
  lemma LaggingReplica(render: KvModel.Render, json: JsonReader, run: seq<Sys>, acts: seq<Action>, j: nat, k: nat, n: ServerId, m: ServerId)
    requires IsRun(run, acts) && j < |run| && k < |run| && n in run[0].nodes && m in run[0].nodes
    requires n in run[j].nodes && m in run[k].nodes && run[j].nodes[n].applyIndex <= run[k].nodes[m].applyIndex
    ensures CatchesUp(render, json, ReplicaAt(render, json, run, acts, j, n), ReplicaAt(render, json, run, acts, k, m))
  {
    EntriesAgree(render, json, run, acts, j, k, n, m);
    AlwaysReplayed(render, json, run, acts, j, n);
    AlwaysReplayed(render, json, run, acts, k, m);
    Lagging(render, json, ReplicaAt(render, json, run, acts, j, n), ReplicaAt(render, json, run, acts, k, m));
  }
}
