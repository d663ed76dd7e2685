/** Ways ahead from the states of runs, and one exchange between a leader and a peer: the request, the
    answer and the bookkeeping (pkg/raft/raft.go:1162-1352, 3090-3224). */
module RaftExchange {
  import opened LogTypes
  import opened Membership
  import opened RaftNode
  import opened RaftProtocol
  import opened AbstractRaft
  import opened AbstractSafety
  import opened RaftRefinement
  import opened RaftTheorems
  import opened RaftProgress
  import opened RaftRounds
  import opened RaftCatchUp

  // ---------------------------------------------------------------------------
  // Ways ahead

  /** Some enabled action takes s to s'. Folded as RaftRefinement folds its invariant, so that joining
      ways does not look into the actions. */
  ghost predicate SealedMove(seal: bool, s: Sys, s': Sys) {
    seal ==> exists a :: Enabled(s, a) && Act(s, a) == s'
  }

  ghost predicate Moves(s: Sys, s': Sys) {
    forall seal: bool :: SealedMove(seal, s, s')
  }

  lemma ActionMoves(s: Sys, a: Action)
    requires Enabled(s, a)
    ensures Moves(s, Act(s, a))
  {
  }

  lemma MoveAction(s: Sys, s': Sys) returns (a: Action)
    requires Moves(s, s')
    ensures Enabled(s, a) && Act(s, a) == s'
  {
    assert SealedMove(true, s, s');
    a :| Enabled(s, a) && Act(s, a) == s';
  }

  ghost predicate Trail(states: seq<Sys>, s: Sys, s': Sys) {
    && states != [] && states[0] == s && states[|states| - 1] == s'
    && forall i :: 0 <= i < |states| - 1 ==> Moves(states[i], states[i + 1])
  }

  /** Some actions lead from s to s'. */
  ghost predicate Leads(s: Sys, s': Sys) {
    exists states :: Trail(states, s, s')
  }

  lemma Stay(s: Sys)
    ensures Leads(s, s)
  {
    assert Trail([s], s, s);
  }

  lemma TrailStep(s: Sys, s': Sys)
    requires Moves(s, s')
    ensures Leads(s, s')
  {
    assert Trail([s, s'], s, s');
  }

  lemma TrailJoin(a: seq<Sys>, b: seq<Sys>, s: Sys, mid: Sys, s': Sys)
    requires Trail(a, s, mid) && Trail(b, mid, s')
    ensures Trail(a + b[1..], s, s')
  {
    var c := a + b[1..];
    forall i | 0 <= i < |c| - 1 ensures Moves(c[i], c[i + 1]) {
      if i < |a| - 1 {
        assert c[i] == a[i] && c[i + 1] == a[i + 1];
      } else {
        var k := i - |a| + 1;
        assert c[i] == b[k] && c[i + 1] == b[k + 1];
      }
    }
  }

  lemma Then(s: Sys, mid: Sys, s': Sys)
    requires Leads(s, mid) && Leads(mid, s')
    ensures Leads(s, s')
  {
    var a :| Trail(a, s, mid);
    var b :| Trail(b, mid, s');
    TrailJoin(a, b, s, mid, s');
  }

  /** One action from a state of a run. */
  lemma Take(s: Sys, a: Action) returns (s': Sys)
    requires Live(s) && Enabled(s, a)
    ensures s' == Act(s, a) && Live(s') && Leads(s, s')
  {
    var g :| Tracks(s, g);
    s' := Act(s, a);
    var g' := ActRefines(s, g, a);
    ActionMoves(s, a);
    TrailStep(s, s');
  }

  /** Only the servers in `who` may have changed, and no packet is gone. */
  ghost predicate Within(s: Sys, s': Sys, who: set<ServerId>) {
    && s'.servers == s.servers && s'.preVote == s.preVote && s'.checkQuorum == s.checkQuorum
    && s'.nodes.Keys == s.nodes.Keys && s.net <= s'.net
    && forall o :: o in s.nodes && o !in who ==> s'.nodes[o] == s.nodes[o]
  }

  lemma WithinThen(s: Sys, mid: Sys, s': Sys, a: set<ServerId>, b: set<ServerId>)
    requires Within(s, mid, a) && Within(mid, s', b)
    ensures Within(s, s', a + b)
  {
  }

  lemma Wires(s: Sys)
    requires Live(s)
    ensures Wired(s) && ValidMembership(s.servers) && s.nodes.Keys == Voters(s.servers) == Members(s.servers)
  {
    var g :| Tracks(s, g);
    OpenSys(s, g);
    LearnerFreeVoters(s.servers);
  }

  // ---------------------------------------------------------------------------
  // What a live state knows

  lemma CommitBounded(s: Sys, n: ServerId)
    requires Live(s) && n in s.nodes
    ensures s.nodes[n].commitIndex <= |s.nodes[n].log|
  {
    var g :| Tracks(s, g);
    ActorOk(s, g, n);
  }

  lemma AckBounded(abs: Abs, t: nat, p: ServerId)
    requires Shape(abs) && AcksSound(abs) && t in abs.chronicle
    ensures Acked(abs, t, p) <= |abs.chronicle[t]|
  {
  }

  /** A leader tracks every other server within its log. */
  lemma LeaderTracks(s: Sys, l: ServerId)
    requires Live(s) && l in s.nodes && s.nodes[l].role == Leader
    ensures var me := s.nodes[l];
            && me.nextIndex.Keys == me.matchIndex.Keys == s.nodes.Keys - {l}
            && (forall p :: p in me.nextIndex ==> 1 <= me.nextIndex[p] <= |me.log| + 1 && me.matchIndex[p] <= |me.log|)
  {
    var g :| Tracks(s, g);
    ActorOk(s, g, l);
    Wires(s);
    LeaderRecorded(s, g, l);
    var me := s.nodes[l];
    forall p | p in me.matchIndex ensures me.matchIndex[p] <= |me.log| {
      AckBounded(g.abs, me.term, p) by { Open(g.abs); }
    }
  }

  lemma SameTermSamePrefix(s: Sys, n: ServerId, m: ServerId, i: nat)
    requires Live(s) && n in s.nodes && m in s.nodes && i < |s.nodes[n].log| && i < |s.nodes[m].log|
    requires s.nodes[n].log[i].term == s.nodes[m].log[i].term
    ensures s.nodes[n].log[..i + 1] == s.nodes[m].log[..i + 1]
  {
    var g :| Tracks(s, g);
    SelfAdvance(s, g);
    LogFaithfulLater(s, g, g, n);
    LogFaithfulLater(s, g, g, m);
    LogMatching(g.abs, s.nodes[n].log, s.nodes[m].log, i);
  }

  lemma TermsOf(s: Sys, n: ServerId)
    requires Live(s) && n in s.nodes
    ensures TermsRise(s.nodes[n].log) && TermsPositive(s.nodes[n].log)
  {
    var g :| Tracks(s, g);
    SelfAdvance(s, g);
    LogFaithfulLater(s, g, g, n);
    ActorOk(s, g, n);
    var log := s.nodes[n].log;
    forall i, j | 0 <= i <= j < |log| ensures log[i].term <= log[j].term {
      FaithfulMonotone(g.abs, log, i, j) by { Open(g.abs); }
    }
    forall i | 0 <= i < |log| ensures log[i].term > 0 {
      TermPositive(g.abs, log, i) by { Open(g.abs); }
    }
  }

  lemma LiveComparable(s: Sys, l: ServerId, f: ServerId)
    requires Live(s) && l in s.nodes && f in s.nodes
    ensures Comparable(s.nodes[l].log, s.nodes[f].log) && TermsPositive(s.nodes[f].log)
  {
    var a, b := s.nodes[l].log, s.nodes[f].log;
    TermsOf(s, l);
    TermsOf(s, f);
    forall i | 0 <= i < |a| && i < |b| && a[i].term == b[i].term ensures a[..i + 1] == b[..i + 1] {
      SameTermSamePrefix(s, l, f, i);
    }
  }

  // ---------------------------------------------------------------------------
  // One exchange between a leader and a peer: request, answer, bookkeeping

  ghost predicate CanExchange(s: Sys, l: ServerId, f: ServerId, count: nat) {
    && l in s.nodes && f in s.nodes && l != f && s.nodes[l].role == Leader
    && f in s.nodes[l].nextIndex && 1 <= s.nodes[l].nextIndex[f] && s.nodes[l].nextIndex[f] - 1 + count <= |s.nodes[l].log|
  }

  ghost function Request(s: Sys, l: ServerId, f: ServerId, count: nat): AppendReq
    requires CanExchange(s, l, f, count)
  {
    BuildAppend(Cfg(s, l), s.nodes[l], f, count)
  }

  /** The peer's next state and answer, and the leader's bookkeeping, folded like Moves. */
  ghost predicate SealedAnswer(seal: bool, cfg: Config, n: Node, req: AppendReq, m: Node, resp: AppendResp) {
    seal ==> HandleAppend(cfg, n, req, 0) == (m, resp)
  }

  ghost predicate Answers(cfg: Config, n: Node, req: AppendReq, m: Node, resp: AppendResp) {
    forall seal: bool :: SealedAnswer(seal, cfg, n, req, m, resp)
  }

  lemma OpenAnswer(cfg: Config, n: Node, req: AppendReq, m: Node, resp: AppendResp)
    requires Answers(cfg, n, req, m, resp)
    ensures HandleAppend(cfg, n, req, 0) == (m, resp)
  {
    assert SealedAnswer(true, cfg, n, req, m, resp);
  }

  ghost predicate SealedBooking(seal: bool, cfg: Config, n: Node, peer: ServerId, resp: AppendResp, lastSent: nat, m: Node) {
    seal ==> OnAppendReply(cfg, n, peer, resp, n.term, lastSent) == m
  }

  ghost predicate Books(cfg: Config, n: Node, peer: ServerId, resp: AppendResp, lastSent: nat, m: Node) {
    forall seal: bool :: SealedBooking(seal, cfg, n, peer, resp, lastSent, m)
  }

  lemma OpenBooking(cfg: Config, n: Node, peer: ServerId, resp: AppendResp, lastSent: nat, m: Node)
    requires Books(cfg, n, peer, resp, lastSent, m)
    ensures OnAppendReply(cfg, n, peer, resp, n.term, lastSent) == m
  {
    assert SealedBooking(true, cfg, n, peer, resp, lastSent, m);
  }

  ghost predicate Exchanged(s: Sys, s': Sys, l: ServerId, f: ServerId, count: nat, resp: AppendResp)
    requires CanExchange(s, l, f, count)
  {
    && Within(s, s', {l, f})
    && Answers(Cfg(s, f), s.nodes[f], Request(s, l, f, count), s'.nodes[f], resp)
    && Books(Cfg(s, l), s.nodes[l], f, resp, LastSent(Request(s, l, f, count)), s'.nodes[l])
  }

  lemma SendIs(s: Sys, l: ServerId, f: ServerId, count: nat)
    requires Wired(s) && CanExchange(s, l, f, count)
    ensures Enabled(s, SendAppend(l, f, count))
    ensures Act(s, SendAppend(l, f, count)) == Updated(s, l, s.nodes[l], {AppendCall(l, f, Request(s, l, f, count))})
  {
  }

  lemma Send(s: Sys, l: ServerId, f: ServerId, count: nat) returns (s': Sys)
    requires Live(s) && CanExchange(s, l, f, count)
    ensures Live(s') && Leads(s, s')
    ensures s' == Updated(s, l, s.nodes[l], {AppendCall(l, f, Request(s, l, f, count))})
  {
    Wires(s);
    SendIs(s, l, f, count);
    s' := Take(s, SendAppend(l, f, count));
  }

  lemma Deliver(s: Sys, p: Packet, ticks: int) returns (s': Sys)
    requires Live(s) && p in s.net && p.AppendCall? && p.dst in s.nodes
    ensures Live(s') && Leads(s, s')
    ensures var (m, resp) := HandleAppend(Cfg(s, p.dst), s.nodes[p.dst], p.append, ticks);
            s' == Updated(s, p.dst, m, {AppendReply(p.dst, p.src, resp, p.append.term, LastSent(p.append))})
  {
    Wires(s);
    DeliveryStep(s, p, ticks);
    s' := Take(s, DeliverAppend(p, ticks));
  }

  lemma ReplyIs(s: Sys, p: Packet)
    requires Enabled(s, DeliverAppendReply(p))
    ensures Act(s, DeliverAppendReply(p))
         == Updated(s, p.dst, OnAppendReply(Cfg(s, p.dst), s.nodes[p.dst], p.src, p.appendResp, p.reqTerm, p.lastSent), {})
  {
  }

  lemma DeliverReply(s: Sys, p: Packet) returns (s': Sys)
    requires Live(s) && p in s.net && p.AppendReply? && p.dst in s.nodes
    ensures Live(s') && Leads(s, s')
    ensures s' == Updated(s, p.dst, OnAppendReply(Cfg(s, p.dst), s.nodes[p.dst], p.src, p.appendResp, p.reqTerm, p.lastSent), {})
  {
    Wires(s);
    ReplyIs(s, p);
    s' := Take(s, DeliverAppendReply(p));
  }

  lemma UpdateWithin(s: Sys, n: ServerId, m: Node, sent: set<Packet>)
    requires n in s.nodes
    ensures var s' := Updated(s, n, m, sent);
            Within(s, s', {n}) && s'.nodes[n] == m && sent <= s'.net
  {
  }

  lemma SendWithin(s: Sys, l: ServerId, f: ServerId, count: nat) returns (s': Sys)
    requires Live(s) && CanExchange(s, l, f, count)
    ensures Live(s') && Leads(s, s') && Within(s, s', {}) && AppendCall(l, f, Request(s, l, f, count)) in s'.net
  {
    s' := Send(s, l, f, count);
    UpdateWithin(s, l, s.nodes[l], {AppendCall(l, f, Request(s, l, f, count))});
  }

  lemma DeliverWithin(s: Sys, p: Packet) returns (s': Sys, resp: AppendResp)
    requires Live(s) && p in s.net && p.AppendCall? && p.dst in s.nodes
    ensures Live(s') && Leads(s, s') && Within(s, s', {p.dst})
    ensures Answers(Cfg(s, p.dst), s.nodes[p.dst], p.append, s'.nodes[p.dst], resp)
    ensures AppendReply(p.dst, p.src, resp, p.append.term, LastSent(p.append)) in s'.net
    ensures Numbered(p.append.entries, p.append.prevIndex + 1)
    ensures resp.success <==> p.append.term >= s.nodes[p.dst].term && PreviousMatches(s.nodes[p.dst].log, p.append)
  {
    LiveRequestAccepted(s, p, 0);
    s' := Deliver(s, p, 0);
    var (m, r) := HandleAppend(Cfg(s, p.dst), s.nodes[p.dst], p.append, 0);
    resp := r;
    UpdateWithin(s, p.dst, m, {AppendReply(p.dst, p.src, resp, p.append.term, LastSent(p.append))});
  }

  lemma ReplyWithin(s: Sys, f: ServerId, l: ServerId, resp: AppendResp, lastSent: nat) returns (s': Sys)
    requires Live(s) && l in s.nodes && AppendReply(f, l, resp, s.nodes[l].term, lastSent) in s.net
    ensures Live(s') && Leads(s, s') && Within(s, s', {l})
    ensures Books(Cfg(s, l), s.nodes[l], f, resp, lastSent, s'.nodes[l])
  {
    s' := DeliverReply(s, AppendReply(f, l, resp, s.nodes[l].term, lastSent));
    UpdateWithin(s, l, s'.nodes[l], {});
  }

  lemma WithinThrice(s: Sys, s1: Sys, s2: Sys, s': Sys, l: ServerId, f: ServerId)
    requires l in s.nodes && f in s.nodes && l != f && Within(s, s1, {}) && Within(s1, s2, {f}) && Within(s2, s', {l})
    ensures Within(s, s', {l, f}) && Cfg(s1, f) == Cfg(s, f) && Cfg(s2, l) == Cfg(s, l)
    ensures s1.nodes[f] == s.nodes[f] && s2.nodes[l] == s.nodes[l] && s'.nodes[f] == s2.nodes[f]
  {
    WithinThen(s, s1, s2, {}, {f});
    WithinThen(s, s2, s', {} + {f}, {l});
    assert {} + {f} + {l} == {l, f};
  }

  lemma Exchange(s: Sys, l: ServerId, f: ServerId, count: nat) returns (s': Sys, resp: AppendResp)
    requires Live(s) && CanExchange(s, l, f, count)
    ensures Live(s') && Leads(s, s') && Exchanged(s, s', l, f, count, resp)
    ensures Numbered(Request(s, l, f, count).entries, Request(s, l, f, count).prevIndex + 1)
    ensures resp.success <==> s.nodes[l].term >= s.nodes[f].term && PreviousMatches(s.nodes[f].log, Request(s, l, f, count))
  {
    var req := Request(s, l, f, count);
    var s1 := SendWithin(s, l, f, count);
    assert f in s1.nodes && req.term == s.nodes[l].term;
    var s2: Sys;
    s2, resp := DeliverWithin(s1, AppendCall(l, f, req));
    assert l in s2.nodes && s2.nodes[l] == s1.nodes[l] == s.nodes[l];
    s' := ReplyWithin(s2, f, l, resp, LastSent(req));
    WithinThrice(s, s1, s2, s', l, f);
    Then(s, s1, s2);
    Then(s, s2, s');
  }

  // ---------------------------------------------------------------------------
  // What an exchange achieves

  /** A leader that only moved its trackers and its commit index. */
  ghost predicate StillLeads(n: Node, m: Node) {
    && n.role == Leader && n.commitIndex <= m.commitIndex
    && m == n.(matchIndex := m.matchIndex, nextIndex := m.nextIndex, commitIndex := m.commitIndex)
  }

  ghost predicate NothingLeft(cfg: Config, m: Node) {
    forall idx :: m.commitIndex < idx <= |m.log| ==> !CanCommit(cfg, m.term, m.log, m.matchIndex, idx)
  }

  lemma LeaderAfter(cfg: Config, n: Node, f: ServerId, resp: AppendResp, lastSent: nat, m: Node)
    requires Books(cfg, n, f, resp, lastSent, m) && n.role == Leader && resp.success && resp.term == n.term
    requires n.commitIndex <= |n.log|
    ensures StillLeads(n, m) && NothingLeft(cfg, m) && Acknowledged(n, m, f, lastSent)
  {
    OpenBooking(cfg, n, f, resp, lastSent, m);
    SuccessCommits(cfg, n, f, resp, lastSent);
  }

  /** The peer after an accepted request: in the leader's term, holding the request, and knowing of what
      the leader committed as far as the request reaches. */
  ghost predicate Joined(n: Node, m: Node, req: AppendReq) {
    var reach := req.prevIndex + |req.entries|;
    && m.term == req.term && m.applyIndex == n.applyIndex && reach <= |m.log|
    && (reach > 0 ==> m.log[reach - 1].term == if req.entries == [] then req.prevTerm else req.entries[|req.entries| - 1].term)
    && (req.entries == [] ==> m.log == n.log)
    && Min(req.leaderCommit, reach) <= m.commitIndex
  }

  lemma AnswerAccepted(cfg: Config, n: Node, req: AppendReq, m: Node, resp: AppendResp) returns (d: nat)
    requires Answers(cfg, n, req, m, resp) && resp.success && Numbered(req.entries, req.prevIndex + 1)
    ensures AcceptedAs(cfg, n, req, 0, d, m, resp)
  {
    OpenAnswer(cfg, n, req, m, resp);
    d := AcceptedAppend(cfg, n, req, 0);
  }

  lemma AcceptedJoins(cfg: Config, n: Node, req: AppendReq, d: nat, m: Node, resp: AppendResp)
    requires AcceptedAs(cfg, n, req, 0, d, m, resp) && PreviousMatches(n.log, req)
    ensures Joined(n, m, req)
  {
    if req.entries != [] {
      OverwrittenHolds(n.log, req, d, |req.entries| - 1);
    }
  }

  lemma FollowerAfter(cfg: Config, n: Node, req: AppendReq, m: Node, resp: AppendResp)
    requires Answers(cfg, n, req, m, resp) && resp.success && Numbered(req.entries, req.prevIndex + 1)
    requires PreviousMatches(n.log, req)
    ensures Joined(n, m, req) && resp.term == req.term
  {
    var d := AnswerAccepted(cfg, n, req, m, resp);
    AcceptedJoins(cfg, n, req, d, m, resp);
  }

  /** Peer f holds the first `reach` entries of leader l. */
  ghost predicate Shares(s: Sys, l: ServerId, f: ServerId, reach: nat) {
    && l in s.nodes && f in s.nodes && reach <= |s.nodes[l].log| && reach <= |s.nodes[f].log|
    && s.nodes[f].log[..reach] == s.nodes[l].log[..reach]
  }

  lemma JoinedShares(s: Sys, l: ServerId, f: ServerId, n: Node, req: AppendReq)
    requires Live(s) && l in s.nodes && f in s.nodes && Joined(n, s.nodes[f], req)
    requires req.prevIndex + |req.entries| <= |s.nodes[l].log|
    requires req.entries == s.nodes[l].log[req.prevIndex..req.prevIndex + |req.entries|]
    requires req.prevIndex > 0 ==> req.prevTerm == s.nodes[l].log[req.prevIndex - 1].term
    ensures Shares(s, l, f, req.prevIndex + |req.entries|)
  {
    var reach := req.prevIndex + |req.entries|;
    if reach > 0 {
      assert s.nodes[f].log[reach - 1].term == s.nodes[l].log[reach - 1].term;
      SameTermSamePrefix(s, f, l, reach - 1);
    }
  }

  lemma Slice(log: Log, from: nat, count: nat)
    requires from + count <= |log|
    ensures |log[from..from + count]| == count
    ensures count > 0 ==> log[from..from + count][count - 1] == log[from + count - 1]
  {
  }

  lemma LastSentIs(req: AppendReq, count: nat, last: LogEntry)
    requires |req.entries| == count && (count > 0 ==> req.entries[count - 1] == last)
    ensures LastSent(req) == if count == 0 then 0 else last.index
  {
  }

  lemma BuiltQuotes(cfg: Config, n: Node, f: ServerId, count: nat)
    requires f in n.nextIndex && 1 <= n.nextIndex[f] && n.nextIndex[f] - 1 + count <= |n.log|
    ensures var req := BuildAppend(cfg, n, f, count);
            && |req.entries| == count
            && LastSent(req) == (if count == 0 then 0 else n.log[req.prevIndex + count - 1].index)
  {
    var req := BuildAppend(cfg, n, f, count);
    Slice(n.log, n.nextIndex[f] - 1, count);
    if count > 0 {
      LastSentIs(req, count, n.log[req.prevIndex + count - 1]);
    }
  }

  /** What the leader asks for is a stretch of its own log. */
  lemma RequestQuotes(s: Sys, l: ServerId, f: ServerId, count: nat)
    requires CanExchange(s, l, f, count)
    ensures var req, me := Request(s, l, f, count), s.nodes[l];
            && req.term == me.term && req.prevIndex == me.nextIndex[f] - 1 && req.leaderCommit == me.commitIndex
            && |req.entries| == count && req.entries == me.log[req.prevIndex..req.prevIndex + count]
            && (req.prevIndex > 0 ==> req.prevTerm == me.log[req.prevIndex - 1].term)
            && LastSent(req) == (if count == 0 then 0 else me.log[req.prevIndex + count - 1].index)
  {
    BuiltQuotes(Cfg(s, l), s.nodes[l], f, count);
  }

  ghost predicate Agreed(s: Sys, s': Sys, l: ServerId, f: ServerId, count: nat)
    requires CanExchange(s, l, f, count) && l in s'.nodes && f in s'.nodes
  {
    && StillLeads(s.nodes[l], s'.nodes[l]) && NothingLeft(Cfg(s, l), s'.nodes[l])
    && Acknowledged(s.nodes[l], s'.nodes[l], f, LastSent(Request(s, l, f, count)))
    && Joined(s.nodes[f], s'.nodes[f], Request(s, l, f, count))
  }

  lemma AgreedFrom(s: Sys, s': Sys, l: ServerId, f: ServerId, count: nat, resp: AppendResp)
    requires CanExchange(s, l, f, count) && Exchanged(s, s', l, f, count, resp) && resp.success
    requires Numbered(Request(s, l, f, count).entries, Request(s, l, f, count).prevIndex + 1)
    requires PreviousMatches(s.nodes[f].log, Request(s, l, f, count)) && s.nodes[l].commitIndex <= |s.nodes[l].log|
    ensures Agreed(s, s', l, f, count)
  {
    var req := Request(s, l, f, count);
    RequestQuotes(s, l, f, count);
    FollowerAfter(Cfg(s, f), s.nodes[f], req, s'.nodes[f], resp);
    LeaderAfter(Cfg(s, l), s.nodes[l], f, resp, LastSent(req), s'.nodes[l]);
  }

  /** An exchange that the peer accepts. */
  lemma AcceptedRound(s: Sys, l: ServerId, f: ServerId, count: nat) returns (s': Sys)
    requires Live(s) && CanExchange(s, l, f, count) && s.nodes[f].term <= s.nodes[l].term
    requires PreviousMatches(s.nodes[f].log, Request(s, l, f, count))
    ensures Live(s') && Leads(s, s') && Within(s, s', {l, f})
    ensures Agreed(s, s', l, f, count) && Shares(s', l, f, s.nodes[l].nextIndex[f] - 1 + count)
  {
    var resp: AppendResp;
    s', resp := Exchange(s, l, f, count);
    CommitBounded(s, l);
    AgreedFrom(s, s', l, f, count, resp);
    RequestQuotes(s, l, f, count);
    JoinedShares(s', l, f, s.nodes[f], Request(s, l, f, count));
  }

  lemma RefusedAnswer(cfg: Config, n: Node, req: AppendReq, m: Node, resp: AppendResp, leader: Log)
    requires Answers(cfg, n, req, m, resp) && !resp.success && req.term >= n.term && Numbered(req.entries, req.prevIndex + 1)
    requires req.prevIndex <= |leader| && (req.prevIndex > 0 ==> req.prevTerm == leader[req.prevIndex - 1].term)
    requires !PreviousMatches(n.log, req)
    ensures m.log == n.log && m.term == req.term && m.applyIndex == n.applyIndex && resp.term == n.term
    ensures !Accepts(n.log, leader, req.prevIndex + 1)
    ensures BackedOff(leader, req.prevIndex + 1, resp) == BackedOff(leader, req.prevIndex + 1, Hints(n.log, leader, req.prevIndex + 1))
  {
    OpenAnswer(cfg, n, req, m, resp);
    RefusedAppend(cfg, n, req, 0);
    RefusalSteers(Heed(cfg, n, req, 0), req, leader, AppendResp(n.term, false, 0, 0));
  }

  lemma LeaderBacksOff(cfg: Config, n: Node, f: ServerId, resp: AppendResp, lastSent: nat, m: Node)
    requires Books(cfg, n, f, resp, lastSent, m) && n.role == Leader && !resp.success && resp.term == n.term && f in n.nextIndex
    ensures m == n.(nextIndex := n.nextIndex[f := BackedOff(n.log, n.nextIndex[f], resp)])
  {
    OpenBooking(cfg, n, f, resp, lastSent, m);
  }

  /** An exchange that the peer, already in the leader's term, refuses: the next index falls. */
  lemma RefusedRound(s: Sys, l: ServerId, f: ServerId) returns (s': Sys)
    requires Live(s) && CanExchange(s, l, f, 0) && s.nodes[f].term == s.nodes[l].term
    requires !PreviousMatches(s.nodes[f].log, Request(s, l, f, 0))
    ensures Live(s') && Leads(s, s') && Within(s, s', {l, f})
    ensures StillLeads(s.nodes[l], s'.nodes[l]) && s'.nodes[l].matchIndex == s.nodes[l].matchIndex
    ensures f in s'.nodes[l].nextIndex && 1 <= s'.nodes[l].nextIndex[f] < s.nodes[l].nextIndex[f]
    ensures forall p :: p in s.nodes[l].nextIndex && p != f ==>
              p in s'.nodes[l].nextIndex && s'.nodes[l].nextIndex[p] == s.nodes[l].nextIndex[p]
    ensures s'.nodes[f].log == s.nodes[f].log && s'.nodes[f].term == s.nodes[f].term && s'.nodes[f].applyIndex == s.nodes[f].applyIndex
  {
    var req, me := Request(s, l, f, 0), s.nodes[l];
    var resp: AppendResp;
    s', resp := Exchange(s, l, f, 0);
    RefusedAnswer(Cfg(s, f), s.nodes[f], req, s'.nodes[f], resp, me.log);
    LeaderBacksOff(Cfg(s, l), me, f, resp, LastSent(req), s'.nodes[l]);
    LiveComparable(s, l, f);
    RefusalLowers(me.log, s.nodes[f].log, me.nextIndex[f]);
  }

  lemma LateReplyIgnored(cfg: Config, n: Node, f: ServerId, resp: AppendResp, lastSent: nat, m: Node)
    requires Books(cfg, n, f, resp, lastSent, m) && resp.term < n.term
    ensures m == n
  {
    OpenBooking(cfg, n, f, resp, lastSent, m);
  }

  /** A heartbeat brings a peer of an earlier term into the leader's. */
  lemma Touch(s: Sys, l: ServerId, f: ServerId) returns (s': Sys)
    requires Live(s) && CanExchange(s, l, f, 0) && s.nodes[f].term <= s.nodes[l].term
    ensures Live(s') && Leads(s, s') && Within(s, s', {l, f})
    ensures StillLeads(s.nodes[l], s'.nodes[l]) && s'.nodes[l].matchIndex == s.nodes[l].matchIndex
    ensures s'.nodes[l].nextIndex == s.nodes[l].nextIndex
    ensures s'.nodes[f].term == s.nodes[l].term && s'.nodes[f].log == s.nodes[f].log && s'.nodes[f].applyIndex == s.nodes[f].applyIndex
  {
    var req := Request(s, l, f, 0);
    if s.nodes[f].term == s.nodes[l].term {
      s' := s;
      Stay(s);
    } else if PreviousMatches(s.nodes[f].log, req) {
      s' := AcceptedRound(s, l, f, 0);
    } else {
      var resp: AppendResp;
      s', resp := Exchange(s, l, f, 0);
      RefusedAnswer(Cfg(s, f), s.nodes[f], req, s'.nodes[f], resp, s.nodes[l].log);
      LateReplyIgnored(Cfg(s, l), s.nodes[l], f, resp, LastSent(req), s'.nodes[l]);
    }
  }
}
