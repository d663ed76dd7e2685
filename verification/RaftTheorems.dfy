/** The promises of the consensus core over whole runs: Election Safety, Log Matching, Leader
    Completeness, and State Machine Safety. */
module RaftTheorems {
  import opened LogTypes
  import opened Membership
  import opened RaftNode
  import opened RaftProtocol
  import opened AbstractRaft
  import opened AbstractSafety
  import opened RaftRefinement
  import opened RaftSimulation
  import opened RaftReplication
  import opened RaftFollower

  // ---------------------------------------------------------------------------
  // Every action refines

  /** Refines, folded as RaftRefinement folds Inv into Sound: OpenSys gives it back. */
  ghost predicate SealedSys(seal: bool, s: Sys, g: Shadow) {
    seal ==> Refines(s, g)
  }

  ghost predicate Tracks(s: Sys, g: Shadow) {
    forall seal: bool :: SealedSys(seal, s, g)
  }

  lemma OpenSys(s: Sys, g: Shadow)
    requires Tracks(s, g)
    ensures Refines(s, g)
  {
    assert SealedSys(true, s, g);
  }

  lemma ActorOk(s: Sys, g: Shadow, n: ServerId)
    requires Tracks(s, g) && n in s.nodes
    ensures n in g.high && n in s.stable && n in s.target && Sound(g.abs)
    ensures NodeOk(g.abs, n, s.nodes[n], g.high[n], s.stable[n], s.target[n])
    ensures n != "" && g.abs.voters == Voters(s.servers) == Members(s.servers)
  {
    OpenSys(s, g);
    assert ServerOk(s, g, n);
    VotersNamed(s.servers, n);
  }

  lemma PacketIn(s: Sys, g: Shadow, p: Packet)
    requires Tracks(s, g) && p in s.net
    ensures PacketOk(g.abs, p) && p.src != ""
  {
    OpenSys(s, g);
    VotersNamed(s.servers, p.src);
  }

  lemma VotersNamed(c: Configuration, n: ServerId)
    requires ValidMembership(c) && n in Voters(c)
    ensures n != "" && n in Members(c)
  {
  }

  lemma UpdateSteps(s: Sys, g: Shadow, n: ServerId, m: Node, sent: set<Packet>, g': Shadow)
    requires Wired(s) && g.high.Keys == s.nodes.Keys && n in s.nodes
    requires n in g'.high && g'.high == g.high[n := g'.high[n]] && g.high[n] <= g'.high[n]
    requires KeepsPrefix(s.nodes[n].log, m.log, g.high[n])
    ensures Steps(s, Updated(s, n, m, sent), g, g', n, m)
  {
  }

  /** A server's own step, lifted to the system. */
  lemma Lift(s: Sys, g: Shadow, n: ServerId, m: Node, sent: set<Packet>, abs': Abs, high': nat) returns (g': Shadow)
    requires Tracks(s, g) && n in s.nodes && n in g.high && n in s.stable && n in s.target
    requires Sound(abs') && NodeStep(g.abs, abs', n, s.nodes[n], m, g.high[n], high', s.stable[n], s.target[n])
    requires forall p :: p in sent ==> PacketOk(abs', p)
    ensures Tracks(Updated(s, n, m, sent), g') && Advances(g, g')
  {
    OpenSys(s, g);
    g' := Shadow(abs', g.high[n := high']);
    UpdateSteps(s, g, n, m, sent, g');
    Assemble(s, Updated(s, n, m, sent), g, g', n, m);
  }

  /** History grows and commit marks never fall. */
  ghost predicate Advances(g: Shadow, g': Shadow) {
    && Evolves(g.abs, g'.abs)
    && g.high.Keys == g'.high.Keys
    && forall n :: n in g.high ==> g.high[n] <= g'.high[n]
  }

  lemma BroadcastOk(s: Sys, n: ServerId, req: Option<VoteReq>, abs: Abs)
    requires RequestOk(abs, n, req) && abs.voters == Voters(s.servers) && n in abs.voters
    ensures forall p :: p in Broadcast(s, n, req) ==> PacketOk(abs, p)
  {
  }

  lemma ElectionRefines(s: Sys, g: Shadow, n: ServerId, already: bool, transfer: bool) returns (g': Shadow)
    requires Tracks(s, g) && n in s.nodes
    ensures var (m, req) := StartElection(Cfg(s, n), s.nodes[n], already, transfer);
            Tracks(Updated(s, n, m, Broadcast(s, n, req)), g') && Advances(g, g')
  {
    ActorOk(s, g, n);
    var (m, req) := StartElection(Cfg(s, n), s.nodes[n], already, transfer);
    var abs', high' := StartElectionStep(g.abs, Cfg(s, n), n, s.nodes[n], already, transfer, g.high[n], s.stable[n], s.target[n]);
    BroadcastOk(s, n, req, abs');
    g' := Lift(s, g, n, m, Broadcast(s, n, req), abs', high');
  }

  lemma QuietRefines(s: Sys, g: Shadow, n: ServerId, m: Node) returns (g': Shadow)
    requires Tracks(s, g) && n in s.nodes
    requires var me := s.nodes[n];
             && m.term == me.term && m.votedFor == me.votedFor && m.log == me.log && m.votes == me.votes
             && m.commitIndex == me.commitIndex
             && (m.role != Leader || (me.role == Leader && m.nextIndex == me.nextIndex && m.matchIndex == me.matchIndex))
    ensures Tracks(Updated(s, n, m, {}), g') && Advances(g, g')
  {
    ActorOk(s, g, n);
    QuietStep(g.abs, n, s.nodes[n], m, g.high[n], s.stable[n], s.target[n]);
    g' := Lift(s, g, n, m, {}, g.abs, g.high[n]);
  }

  lemma VoteRefines(s: Sys, g: Shadow, p: Packet, durable: bool, ticks: int) returns (g': Shadow)
    requires Tracks(s, g) && p in s.net && p.VoteCall? && p.dst in s.nodes
    ensures var (m, resp) := HandleVote(Cfg(s, p.dst), s.nodes[p.dst], p.vote, durable, ticks);
            Tracks(Updated(s, p.dst, m, {VoteReply(p.dst, p.src, p.vote.preVote, resp)}), g') && Advances(g, g')
  {
    var n := p.dst;
    ActorOk(s, g, n);
    PacketIn(s, g, p);
    var (m, resp) := HandleVote(Cfg(s, n), s.nodes[n], p.vote, durable, ticks);
    var abs' := VoteSim(g.abs, Cfg(s, n), n, s.nodes[n], p.vote, durable, ticks, g.high[n], s.stable[n], s.target[n]);
    VoteReplyOk(abs', n, p.src, p.vote.preVote, resp);
    g' := Lift(s, g, n, m, {VoteReply(n, p.src, p.vote.preVote, resp)}, abs', g.high[n]);
  }

  lemma VoteReplyOk(abs: Abs, n: ServerId, c: ServerId, preVote: bool, resp: VoteResp)
    requires n in abs.voters && c in abs.voters && n != c
    requires !preVote && resp.granted ==> (resp.term, n) in abs.ballots && abs.ballots[(resp.term, n)].candidate == c
    ensures PacketOk(abs, VoteReply(n, c, preVote, resp))
  {
  }

  lemma VoteReplyRefines(s: Sys, g: Shadow, p: Packet) returns (g': Shadow)
    requires Tracks(s, g) && p in s.net && p.VoteReply? && p.dst in s.nodes && !p.preVote
    ensures Tracks(Updated(s, p.dst, OnVoteReply(Cfg(s, p.dst), s.nodes[p.dst], p.src, p.voteResp), {}), g') && Advances(g, g')
  {
    var n := p.dst;
    ActorOk(s, g, n);
    PacketIn(s, g, p);
    var abs', high' := VoteReplyStep(g.abs, Cfg(s, n), n, s.nodes[n], p.src, p.voteResp, g.high[n], s.stable[n], s.target[n]);
    g' := Lift(s, g, n, OnVoteReply(Cfg(s, n), s.nodes[n], p.src, p.voteResp), {}, abs', high');
  }

  lemma PreVoteReplyRefines(s: Sys, g: Shadow, p: Packet) returns (g': Shadow)
    requires Tracks(s, g) && p in s.net && p.VoteReply? && p.dst in s.nodes && p.preVote
    ensures var (m, req) := OnPreVoteReply(Cfg(s, p.dst), s.nodes[p.dst], p.src, p.voteResp);
            Tracks(Updated(s, p.dst, m, Broadcast(s, p.dst, req)), g') && Advances(g, g')
  {
    var n := p.dst;
    ActorOk(s, g, n);
    var (m, req) := OnPreVoteReply(Cfg(s, n), s.nodes[n], p.src, p.voteResp);
    var abs', high' := PreVoteReplyStep(g.abs, Cfg(s, n), n, s.nodes[n], p.src, p.voteResp, g.high[n], s.stable[n], s.target[n]);
    BroadcastOk(s, n, req, abs');
    g' := Lift(s, g, n, m, Broadcast(s, n, req), abs', high');
  }

  lemma SendRefines(s: Sys, g: Shadow, n: ServerId, peer: ServerId, count: nat) returns (g': Shadow)
    requires Tracks(s, g) && Enabled(s, SendAppend(n, peer, count))
    ensures var req := BuildAppend(Cfg(s, n), s.nodes[n], peer, count);
            Tracks(Updated(s, n, s.nodes[n], {AppendCall(n, peer, req)}), g') && Advances(g, g')
  {
    var me, req := s.nodes[n], BuildAppend(Cfg(s, n), s.nodes[n], peer, count);
    ActorOk(s, g, n);
    SendStep(g.abs, Cfg(s, n), n, me, peer, count, g.high[n], s.stable[n], s.target[n]) by { Open(g.abs); }
    QuietStep(g.abs, n, me, me, g.high[n], s.stable[n], s.target[n]);
    AppendCallOk(g.abs, n, peer, req);
    g' := Lift(s, g, n, me, {AppendCall(n, peer, req)}, g.abs, g.high[n]);
  }

  lemma AppendCallOk(abs: Abs, n: ServerId, peer: ServerId, req: AppendReq)
    requires n in abs.voters && peer in abs.voters && n != peer && AppendOk(abs, n, req)
    ensures PacketOk(abs, AppendCall(n, peer, req))
  {
  }

  function LastSent(req: AppendReq): nat {
    if req.entries == [] then 0 else LastCovered(req)
  }

  lemma AppendRefines(s: Sys, g: Shadow, p: Packet, ticks: int) returns (g': Shadow)
    requires Tracks(s, g) && p in s.net && p.AppendCall? && p.dst in s.nodes
    ensures var (m, resp) := HandleAppend(Cfg(s, p.dst), s.nodes[p.dst], p.append, ticks);
            && Tracks(Updated(s, p.dst, m, {AppendReply(p.dst, p.src, resp, p.append.term, LastSent(p.append))}), g')
            && Advances(g, g')
  {
    var n, req := p.dst, p.append;
    ActorOk(s, g, n);
    PacketIn(s, g, p);
    var (m, resp) := HandleAppend(Cfg(s, n), s.nodes[n], req, ticks);
    var abs', high' := AppendSim(g.abs, Cfg(s, n), n, s.nodes[n], p.src, req, ticks, g.high[n], s.stable[n], s.target[n]);
    LastSentCovered(g.abs, p.src, req) by { Open(g.abs); }
    AppendReplyOk(abs', n, p.src, resp, req.term, LastSent(req));
    g' := Lift(s, g, n, m, {AppendReply(n, p.src, resp, req.term, LastSent(req))}, abs', high');
  }

  lemma AppendReplyOk(abs: Abs, n: ServerId, l: ServerId, resp: AppendResp, reqTerm: nat, lastSent: nat)
    requires n in abs.voters && l in abs.voters && n != l
    requires resp.success ==> lastSent <= Acked(abs, reqTerm, n)
    ensures PacketOk(abs, AppendReply(n, l, resp, reqTerm, lastSent))
  {
  }

  lemma LastSentCovered(abs: Abs, l: ServerId, req: AppendReq)
    requires ChroniclesFaithful(abs) && AppendOk(abs, l, req)
    ensures req.entries != [] ==> LastCovered(req) == Reach(req)
  {
    assert Numbered(abs.chronicle[req.term], 1);
  }

  lemma AppendReplyRefines(s: Sys, g: Shadow, p: Packet) returns (g': Shadow)
    requires Tracks(s, g) && Enabled(s, DeliverAppendReply(p))
    ensures Tracks(Act(s, DeliverAppendReply(p)), g') && Advances(g, g')
  {
    var n := p.dst;
    ActorOk(s, g, n);
    PacketIn(s, g, p);
    var abs', high' := AppendReplyStep(g.abs, Cfg(s, n), n, s.nodes[n], p.src, p.appendResp, p.reqTerm, p.lastSent,
                                       g.high[n], s.stable[n], s.target[n]);
    g' := Lift(s, g, n, OnAppendReply(Cfg(s, n), s.nodes[n], p.src, p.appendResp, p.reqTerm, p.lastSent), {}, abs', high');
  }

  lemma BatchRefines(s: Sys, g: Shadow, n: ServerId, batch: seq<seq<byte>>) returns (g': Shadow)
    requires Tracks(s, g) && n in s.nodes
    ensures Tracks(Updated(s, n, Propose(Cfg(s, n), s.nodes[n], batch), {}), g') && Advances(g, g')
  {
    ActorOk(s, g, n);
    var abs', high' := ProposeStep(g.abs, Cfg(s, n), n, s.nodes[n], batch, g.high[n], s.stable[n], s.target[n]);
    g' := Lift(s, g, n, Propose(Cfg(s, n), s.nodes[n], batch), {}, abs', high');
  }

  /** Flushing, reading the commit index, applying and restarting leave history alone. */
  lemma BookkeepingRefines(s: Sys, s': Sys, g: Shadow, n: ServerId)
    requires Tracks(s, g) && n in s.nodes && n in g.high && Wired(s) && s'.servers == s.servers && s'.net == s.net && Wired(s')
    requires forall o :: o in s.nodes && o != n ==>
               s'.nodes[o] == s.nodes[o] && s'.stable[o] == s.stable[o] && s'.target[o] == s.target[o]
    requires var me, m := s.nodes[n], s'.nodes[n];
             && m.term == me.term && m.votedFor == me.votedFor && m.log == me.log
             && (m.votes == me.votes || m.votes == {})
             && (m.role == Follower || (m.role == me.role && m.nextIndex == me.nextIndex && m.matchIndex == me.matchIndex))
             && m.commitIndex <= g.high[n] && s'.stable[n] <= g.high[n] && s'.target[n] <= g.high[n]
    requires forall x :: x in s'.applied && x !in s.applied ==> x.0 == n && Holds(s.nodes[n].log, g.high[n], x.1, x.2)
    ensures Tracks(s', g) && Advances(g, g)
  {
    OpenSys(s, g);
    ActorOk(s, g, n);
    QuietStep(g.abs, n, s.nodes[n], s'.nodes[n], g.high[n], s.stable[n], s.target[n]);
    Assemble(s, s', g, g, n, s'.nodes[n]);
  }

  /** New values for the commit index on disk and the one the apply loop works towards. */
  lemma MarksRefine(s: Sys, g: Shadow, n: ServerId, stable: nat, target: nat)
    requires Tracks(s, g) && Wired(s) && n in s.nodes && n in g.high && stable <= g.high[n] && target <= g.high[n]
    ensures Tracks(s.(stable := s.stable[n := stable], target := s.target[n := target]), g) && Advances(g, g)
  {
    ActorOk(s, g, n);
    BookkeepingRefines(s, s.(stable := s.stable[n := stable], target := s.target[n := target]), g, n);
  }

  lemma FlushRefines(s: Sys, g: Shadow, n: ServerId)
    requires Tracks(s, g) && Enabled(s, FlushCommit(n))
    ensures Tracks(s.(stable := s.stable[n := s.nodes[n].commitIndex]), g) && Advances(g, g)
  {
    ActorOk(s, g, n);
    MarksRefine(s, g, n, s.nodes[n].commitIndex, s.target[n]);
    assert s.target[n := s.target[n]] == s.target;
  }

  lemma ReadRefines(s: Sys, g: Shadow, n: ServerId)
    requires Tracks(s, g) && Enabled(s, ReadCommit(n))
    ensures Tracks(s.(target := s.target[n := s.nodes[n].commitIndex]), g) && Advances(g, g)
  {
    ActorOk(s, g, n);
    MarksRefine(s, g, n, s.stable[n], s.nodes[n].commitIndex);
    assert s.stable[n := s.stable[n]] == s.stable;
  }

  function AfterApply(s: Sys, n: ServerId): Sys
    requires n in s.nodes && s.nodes[n].applyIndex < |s.nodes[n].log|
  {
    var me := s.nodes[n];
    s.(nodes := s.nodes[n := me.(applyIndex := me.applyIndex + 1)],
       applied := s.applied + {(n, me.applyIndex + 1, me.log[me.applyIndex])})
  }

  lemma ApplyRefines(s: Sys, g: Shadow, n: ServerId)
    requires Tracks(s, g) && Wired(s) && n in s.nodes
    requires s.nodes[n].applyIndex < s.target[n] && s.nodes[n].applyIndex < |s.nodes[n].log|
    ensures Tracks(AfterApply(s, n), g) && Advances(g, g)
  {
    ActorOk(s, g, n);
    var me := s.nodes[n];
    AppliesWithin(me.log, me.applyIndex, g.high[n]);
    OneNew(s.applied, (n, me.applyIndex + 1, me.log[me.applyIndex]));
    BookkeepingRefines(s, AfterApply(s, n), g, n);
  }

  lemma AppliesWithin(log: Log, i: nat, high: nat)
    requires i < high <= |log|
    ensures Holds(log, high, i + 1, log[i])
  {
  }

  lemma OneNew(applied: set<(ServerId, nat, LogEntry)>, x: (ServerId, nat, LogEntry))
    ensures forall y :: y in applied + {x} && y !in applied ==> y == x
  {
  }

  lemma RestartRefines(s: Sys, g: Shadow, n: ServerId, ticks: int)
    requires Tracks(s, g) && Wired(s) && n in s.nodes
    ensures Tracks(s.(nodes := s.nodes[n := Restarted(s.nodes[n], s.stable[n], ticks)], target := s.target[n := 0]), g)
    ensures Advances(g, g)
  {
    ActorOk(s, g, n);
    BookkeepingRefines(s, s.(nodes := s.nodes[n := Restarted(s.nodes[n], s.stable[n], ticks)], target := s.target[n := 0]), g, n);
  }

  lemma ActRefines(s: Sys, g: Shadow, a: Action) returns (g': Shadow)
    requires Tracks(s, g) && Enabled(s, a)
    ensures Tracks(Act(s, a), g') && Advances(g, g')
  {
    match a
    case Timeout(n) => g' := ElectionRefines(s, g, n, false, false);
    case TimeoutNow(n) => g' := ElectionRefines(s, g, n, true, true);
    case SetTimer(n, ticks) => g' := QuietRefines(s, g, n, s.nodes[n].(electionTicks := ticks));
    case BeginTransfer(n) => g' := QuietRefines(s, g, n, s.nodes[n].(transferring := true));
    case DeliverVote(p, durable, ticks) => g' := VoteRefines(s, g, p, durable, ticks);
    case DeliverVoteReply(p) =>
      if p.preVote {
        g' := PreVoteReplyRefines(s, g, p);
      } else {
        g' := VoteReplyRefines(s, g, p);
      }
    case SendAppend(n, peer, count) => g' := SendRefines(s, g, n, peer, count);
    case DeliverAppend(p, ticks) => g' := AppendRefines(s, g, p, ticks);
    case DeliverAppendReply(p) => g' := AppendReplyRefines(s, g, p);
    case ClientBatch(n, batch) => g' := BatchRefines(s, g, n, batch);
    case QuorumCheck(n, recent, ticks) => g' := QuietRefines(s, g, n, CheckQuorum(Cfg(s, n), s.nodes[n], recent, ticks));
    case FlushCommit(n) => g' := g; FlushRefines(s, g, n);
    case ReadCommit(n) => g' := g; ReadRefines(s, g, n);
    case ApplyNext(n) => g' := g; ApplyRefines(s, g, n);
    case Restart(n, _) => g' := g; RestartRefines(s, g, n, a.ticks);
  }

  // ---------------------------------------------------------------------------
  // Runs

  lemma BootRefines(c: Configuration, preVote: bool, checkQuorum: bool) returns (g: Shadow)
    requires ValidMembership(c)
    ensures Tracks(Boot(c, preVote, checkQuorum), g)
  {
    var s := Boot(c, preVote, checkQuorum);
    g := Shadow(Start(Voters(c)), map n | n in Voters(c) :: 0);
    StartInv(Voters(c));
    forall n | n in s.nodes ensures ServerOk(s, g, n) {
      assert VoteMatches(g.abs, n, s.nodes[n]);
    }
    assert Sound(g.abs);
    assert Refines(s, g);
  }

  lemma AdvancesTrans(a: Shadow, b: Shadow, c: Shadow)
    requires Advances(a, b) && Advances(b, c)
    ensures Advances(a, c)
  {
    EvolvesTrans(a.abs, b.abs, c.abs);
  }

  /** The history behind a run: one shadow per state, each an advance on every earlier one. */
  ghost predicate Shadows(run: seq<Sys>, gs: seq<Shadow>) {
    && |gs| == |run|
    && (forall k :: 0 <= k < |run| ==> Tracks(run[k], gs[k]))
    && (forall j, k :: 0 <= j <= k < |run| ==> Advances(gs[j], gs[k]))
  }

  lemma RunStepRefines(run: seq<Sys>, acts: seq<Action>, k: nat, g: Shadow) returns (g': Shadow)
    requires IsRun(run, acts) && k < |acts| && Tracks(run[k], g)
    ensures Tracks(run[k + 1], g') && Advances(g, g')
  {
    g' := ActRefines(run[k], g, acts[k]);
  }

  lemma {:induction false} ShadowsUpTo(run: seq<Sys>, acts: seq<Action>, k: nat) returns (gs: seq<Shadow>)
    requires IsRun(run, acts) && k < |run|
    ensures Shadows(run[..k + 1], gs)
    decreases k
  {
    if k == 0 {
      var g := BootRefines(run[0].servers, run[0].preVote, run[0].checkQuorum);
      gs := [g];
      SelfAdvance(run[0], g);
    } else {
      var prev := ShadowsUpTo(run, acts, k - 1);
      assert run[..k][k - 1] == run[k - 1];
      var g := RunStepRefines(run, acts, k - 1, prev[k - 1]);
      assert run[..k + 1][..k] == run[..k];
      gs := OneMore(run[..k + 1], prev, g);
    }
  }

  lemma RunHasShadows(run: seq<Sys>, acts: seq<Action>) returns (gs: seq<Shadow>)
    requires IsRun(run, acts)
    ensures Shadows(run, gs)
  {
    gs := ShadowsUpTo(run, acts, |acts|);
    assert run[..|run|] == run;
  }

  lemma OneMore(run: seq<Sys>, prev: seq<Shadow>, g: Shadow) returns (gs: seq<Shadow>)
    requires |run| == |prev| + 1 >= 2 && Shadows(run[..|prev|], prev)
    requires Tracks(run[|prev|], g) && Advances(prev[|prev| - 1], g)
    ensures Shadows(run, gs)
  {
    gs := prev + [g];
    SelfAdvance(run[|prev|], g);
    forall j | 0 <= j < |prev| ensures Advances(gs[j], g) {
      AdvancesTrans(prev[j], prev[|prev| - 1], g);
    }
  }

  lemma SelfAdvance(s: Sys, g: Shadow)
    requires Tracks(s, g)
    ensures Advances(g, g)
  {
    OpenSys(s, g);
    OnlyBySelf(g.abs, "");
  }

  // ---------------------------------------------------------------------------
  // Election Safety

  lemma LeaderRecorded(s: Sys, g: Shadow, n: ServerId)
    requires Tracks(s, g) && n in s.nodes && s.nodes[n].role == Leader
    ensures s.nodes[n].term in g.abs.chronicle && s.nodes[n].term in g.abs.leader
    ensures g.abs.leader[s.nodes[n].term] == n && g.abs.chronicle[s.nodes[n].term] == s.nodes[n].log
  {
    ActorOk(s, g, n);
    Open(g.abs);
  }

  /** At most one server is ever leader in a term, at any two moments of a run: pre-vote rounds,
      transfer campaigns, restarts, and late votes after a CheckQuorum step-down included. */
  lemma ElectionSafetyTheorem(run: seq<Sys>, acts: seq<Action>, j: nat, k: nat, n: ServerId, m: ServerId)
    requires IsRun(run, acts) && j < |run| && k < |run|
    requires n in run[j].nodes && run[j].nodes[n].role == Leader
    requires m in run[k].nodes && run[k].nodes[m].role == Leader
    requires run[j].nodes[n].term == run[k].nodes[m].term
    ensures n == m
  {
    var gs := RunHasShadows(run, acts);
    var z := |run| - 1;
    LeaderRecorded(run[j], gs[j], n);
    LeaderRecorded(run[k], gs[k], m);
    assert Advances(gs[j], gs[z]) && Advances(gs[k], gs[z]);
  }

  // ---------------------------------------------------------------------------
  // Log Matching

  lemma LogFaithfulLater(s: Sys, g: Shadow, g': Shadow, n: ServerId)
    requires Tracks(s, g) && Advances(g, g') && n in s.nodes
    ensures Faithful(g'.abs, s.nodes[n].log)
  {
    ActorOk(s, g, n);
    Open(g.abs);
    FaithfulEvolves(g.abs, g'.abs, s.nodes[n].log);
  }

  /** Two logs, of any servers at any moments of a run, that hold the same term at an index are
      identical up to that index. */
  lemma LogMatchingTheorem(run: seq<Sys>, acts: seq<Action>, j: nat, k: nat, n: ServerId, m: ServerId, i: nat)
    requires IsRun(run, acts) && j < |run| && k < |run|
    requires n in run[j].nodes && m in run[k].nodes
    requires i < |run[j].nodes[n].log| && i < |run[k].nodes[m].log|
    requires run[j].nodes[n].log[i].term == run[k].nodes[m].log[i].term
    ensures run[j].nodes[n].log[..i + 1] == run[k].nodes[m].log[..i + 1]
  {
    var gs := RunHasShadows(run, acts);
    var z := |run| - 1;
    LogFaithfulLater(run[j], gs[j], gs[z], n);
    LogFaithfulLater(run[k], gs[k], gs[z], m);
    LogMatching(gs[z].abs, run[j].nodes[n].log, run[k].nodes[m].log, i);
  }

  lemma TermPositive(a: Abs, l: Log, i: nat)
    requires Inv(a) && Faithful(a, l) && i < |l|
    ensures l[i].term > 0
  {
    var t := l[i].term;
    var v := VoterOf(a, t, Supporters(a, t, a.leader[t]));
  }

  /** Logs number their entries from 1, and terms start at 1 and never decrease along them. */
  lemma LogShapeTheorem(run: seq<Sys>, acts: seq<Action>, k: nat, n: ServerId, i: nat, j: nat)
    requires IsRun(run, acts) && k < |run| && n in run[k].nodes && i <= j < |run[k].nodes[n].log|
    ensures run[k].nodes[n].log[i].index == i + 1
    ensures 0 < run[k].nodes[n].log[i].term <= run[k].nodes[n].log[j].term <= run[k].nodes[n].term
  {
    var gs := RunHasShadows(run, acts);
    ActorOk(run[k], gs[k], n);
    Open(gs[k].abs);
    FaithfulNumbered(gs[k].abs, run[k].nodes[n].log);
    FaithfulMonotone(gs[k].abs, run[k].nodes[n].log, i, j);
    TermPositive(gs[k].abs, run[k].nodes[n].log, i);
  }

  // ---------------------------------------------------------------------------
  // Leader Completeness and durability of committed entries

  lemma CommitRecorded(s: Sys, g: Shadow, n: ServerId)
    requires Tracks(s, g) && n in s.nodes
    ensures n in g.high && s.nodes[n].commitIndex <= g.high[n] <= |s.nodes[n].log|
    ensures Committed(g.abs, s.nodes[n].log[..g.high[n]], s.nodes[n].term)
    ensures Committed(g.abs, s.nodes[n].log[..s.nodes[n].commitIndex], s.nodes[n].term)
  {
    ActorOk(s, g, n);
    var me := s.nodes[n];
    CommittedPrefix(g.abs, me.log[..g.high[n]], me.log[..me.commitIndex], me.term);
  }

  lemma LeaderHasCommitted(s: Sys, g: Shadow, s': Sys, g': Shadow, n: ServerId, m: ServerId)
    requires Tracks(s, g) && Tracks(s', g') && Advances(g, g') && n in s.nodes && m in s'.nodes
    requires s'.nodes[m].role == Leader && s'.nodes[m].term >= s.nodes[n].term
    ensures var me := s.nodes[n];
            me.commitIndex <= |me.log| && me.log[..me.commitIndex] <= s'.nodes[m].log
  {
    var me := s.nodes[n];
    CommitRecorded(s, g, n);
    CommittedEvolves(g.abs, g'.abs, me.log[..me.commitIndex], me.term, me.term);
    LeaderRecorded(s', g', m);
    ActorOk(s', g', m);
    LeaderCompleteness(g'.abs, me.log[..me.commitIndex], me.term, s'.nodes[m].term) by { Open(g'.abs); }
  }

  /** Whatever a server takes to be committed is in the log of every leader of that term or a
      later one, from that moment on. */
  lemma LeaderCompletenessTheorem(run: seq<Sys>, acts: seq<Action>, j: nat, k: nat, n: ServerId, m: ServerId)
    requires IsRun(run, acts) && j <= k < |run| && n in run[j].nodes && m in run[k].nodes
    requires run[k].nodes[m].role == Leader && run[k].nodes[m].term >= run[j].nodes[n].term
    ensures var me := run[j].nodes[n];
            me.commitIndex <= |me.log| && me.log[..me.commitIndex] <= run[k].nodes[m].log
  {
    var gs := RunHasShadows(run, acts);
    LeaderHasCommitted(run[j], gs[j], run[k], gs[k], n, m);
  }

  lemma CommittedComparable(a: Abs, p: Log, q: Log, b1: nat, b2: nat)
    requires Sound(a) && Committed(a, p, b1) && Committed(a, q, b2)
    ensures p <= q || q <= p
  {
    Open(a);
    CommittedAgree(a, p, q, b1, b2);
  }

  lemma PrefixStays(s: Sys, g: Shadow, s': Sys, g': Shadow, n: ServerId)
    requires Tracks(s, g) && Tracks(s', g') && Advances(g, g') && n in s.nodes && n in s'.nodes
    ensures s.nodes[n].commitIndex <= |s.nodes[n].log|
    ensures s.nodes[n].log[..s.nodes[n].commitIndex] <= s'.nodes[n].log
  {
    var me := s.nodes[n];
    CommitRecorded(s, g, n);
    CommitRecorded(s', g', n);
    ActorOk(s', g', n);
    var p, q := me.log[..me.commitIndex], s'.nodes[n].log[..g'.high[n]];
    CommittedEvolves(g.abs, g'.abs, p, me.term, me.term);
    CommittedComparable(g'.abs, p, q, me.term, s'.nodes[n].term);
    ShorterPrefix(p, q, s'.nodes[n].log);
  }

  lemma ShorterPrefix(p: Log, q: Log, l: Log)
    requires (p <= q || q <= p) && |p| <= |q| && q <= l
    ensures p <= l
  {
  }

  /** No action, an append request in particular, ever changes an entry at or below a commit index
      the server has had, even where that index later falls. */
  lemma CommittedEntriesStay(run: seq<Sys>, acts: seq<Action>, j: nat, k: nat, n: ServerId)
    requires IsRun(run, acts) && j <= k < |run| && n in run[j].nodes
    ensures n in run[k].nodes && run[j].nodes[n].commitIndex <= |run[j].nodes[n].log|
    ensures run[j].nodes[n].log[..run[j].nodes[n].commitIndex] <= run[k].nodes[n].log
  {
    var gs := RunHasShadows(run, acts);
    SameServers(run[j], gs[j], run[k], gs[k], n);
    PrefixStays(run[j], gs[j], run[k], gs[k], n);
  }

  lemma SameServers(s: Sys, g: Shadow, s': Sys, g': Shadow, n: ServerId)
    requires Tracks(s, g) && Tracks(s', g') && Advances(g, g') && n in s.nodes
    ensures n in s'.nodes
  {
    OpenSys(s, g);
    OpenSys(s', g');
  }

  // ---------------------------------------------------------------------------
  // State Machine Safety

  lemma AppliedRecorded(s: Sys, g: Shadow, x: (ServerId, nat, LogEntry))
    requires Tracks(s, g) && x in s.applied
    ensures x.0 in s.nodes && x.0 in g.high && Holds(s.nodes[x.0].log, g.high[x.0], x.1, x.2)
  {
    OpenSys(s, g);
    assert AppliedAt(s, g, x);
  }

  /** Entry e stands at index i of a committed prefix. */
  ghost predicate Placed(a: Abs, i: nat, e: LogEntry) {
    exists p: Log, bound: nat :: PlacedIn(a, p, bound, i, e)
  }

  ghost predicate PlacedIn(a: Abs, p: Log, bound: nat, i: nat, e: LogEntry) {
    Committed(a, p, bound) && 1 <= i <= |p| && p[i - 1] == e
  }

  /** What was applied at an index was part of a committed prefix, which stays committed. */
  lemma AppliedPlaced(s: Sys, g: Shadow, g': Shadow, x: (ServerId, nat, LogEntry))
    requires Tracks(s, g) && Advances(g, g') && x in s.applied
    ensures Placed(g'.abs, x.1, x.2)
  {
    AppliedRecorded(s, g, x);
    CommitRecorded(s, g, x.0);
    var p, bound := s.nodes[x.0].log[..g.high[x.0]], s.nodes[x.0].term;
    CommittedEvolves(g.abs, g'.abs, p, bound, bound);
    assert PlacedIn(g'.abs, p, bound, x.1, x.2);
  }

  lemma PlacedAgree(a: Abs, i: nat, e: LogEntry, e': LogEntry)
    requires Sound(a) && Placed(a, i, e) && Placed(a, i, e')
    ensures e == e'
  {
    var p: Log, b1: nat :| PlacedIn(a, p, b1, i, e);
    var q: Log, b2: nat :| PlacedIn(a, q, b2, i, e');
    CommittedComparable(a, p, q, b1, b2);
  }

  /** No two servers ever apply different entries at the same index, whenever they apply them. */
  lemma StateMachineSafetyTheorem(run: seq<Sys>, acts: seq<Action>, j: nat, k: nat,
                                  x: (ServerId, nat, LogEntry), y: (ServerId, nat, LogEntry))
    requires IsRun(run, acts) && j < |run| && k < |run|
    requires x in run[j].applied && y in run[k].applied && x.1 == y.1
    ensures x.2 == y.2
  {
    var gs := RunHasShadows(run, acts);
    var z := |run| - 1;
    AppliedPlaced(run[j], gs[j], gs[z], x);
    AppliedPlaced(run[k], gs[k], gs[z], y);
    PlacedAgree(gs[z].abs, x.1, x.2, y.2) by { OpenSys(run[z], gs[z]); }
  }
}
