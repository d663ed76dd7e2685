/** Every action of RaftProtocol is a few steps of AbstractRaft. The relation between the two
    ties each server to its abstract term and log and says what every packet in the network
    stands for. */
module RaftRefinement {
  import opened LogTypes
  import opened Membership
  import opened RaftNode
  import opened RaftProtocol
  import opened AbstractRaft
  import opened AbstractSafety

  // ---------------------------------------------------------------------------
  // The abstract invariant, folded: proofs about one server carry it along without unfolding it.
  // Sound(abs) is Inv(abs) said once for each boolean, under the name Sealed. The verifier only sees
  // what it stands for when some Sealed(b, abs) is mentioned, which is what Open does; without that
  // the many quantifiers of Inv stay out of a proof that merely passes Sound on. RaftTheorems,
  // WalIndex and KvStore fold their large predicates the same way.

  ghost predicate Sealed(seal: bool, abs: Abs) {
    seal ==> Inv(abs)
  }

  ghost predicate Sound(abs: Abs) {
    forall seal: bool :: Sealed(seal, abs)
  }

  lemma Open(abs: Abs)
    requires Sound(abs)
    ensures Inv(abs)
  {
    assert Sealed(true, abs);
  }

  lemma BumpSound(abs: Abs, n: ServerId, t: nat)
    requires Sound(abs) && n in abs.voters && n in abs.term && abs.term[n] < t
    ensures Sound(Bump(abs, n, t))
  {
    Open(abs);
    BumpKeepsInv(abs, n, t);
  }

  lemma CampaignSound(abs: Abs, n: ServerId)
    requires Sound(abs) && n in abs.voters && n in abs.term && n in abs.log
    ensures Sound(Campaign(abs, n))
  {
    Open(abs);
    CampaignKeepsInv(abs, n);
  }

  lemma CastSound(abs: Abs, v: ServerId, c: ServerId)
    requires Sound(abs) && CanCast(abs, v, c)
    ensures Sound(Cast(abs, v, c))
  {
    Open(abs);
    CastKeepsInv(abs, v, c);
  }

  lemma WinSound(abs: Abs, n: ServerId, e: LogEntry)
    requires Sound(abs) && CanWin(abs, n, e)
    ensures Sound(Win(abs, n, e)) && Evolves(abs, Win(abs, n, e))
  {
    Open(abs);
    WinKeepsInv(abs, n, e);
  }

  lemma ExtendSound(abs: Abs, n: ServerId, es: Log)
    requires Sound(abs) && CanExtend(abs, n, es)
    ensures Sound(Extend(abs, n, es)) && Evolves(abs, Extend(abs, n, es))
  {
    Open(abs);
    ExtendKeepsInv(abs, n, es);
  }

  lemma AcceptSound(abs: Abs, n: ServerId, hi: nat)
    requires Sound(abs) && CanAccept(abs, n, hi)
    ensures Sound(Accept(abs, n, hi))
  {
    Open(abs);
    AcceptKeepsInv(abs, n, hi);
  }

  /** `high` is the highest commit index each server ever had. */
  datatype Shadow = Shadow(abs: Abs, high: map<ServerId, nat>)

  ghost predicate Matches(s: Sys, g: Shadow) {
    && Wired(s) && ValidMembership(s.servers)
    && Shape(g.abs)
    && g.abs.voters == s.nodes.Keys
    && g.high.Keys == s.nodes.Keys
    && forall n :: n in s.nodes ==> g.abs.term[n] == s.nodes[n].term && g.abs.log[n] == s.nodes[n].log
  }

  // ---------------------------------------------------------------------------
  // What a server knows

  ghost predicate VoteMatches(abs: Abs, n: ServerId, m: Node) {
    && (m.votedFor == "" ==> (m.term, n) !in abs.ballots)
    && (m.votedFor != "" ==> (m.term, n) in abs.ballots && abs.ballots[(m.term, n)].candidate == m.votedFor)
    && (m.votedFor == n ==> m.votes <= Supporters(abs, m.term, n))
  }

  ghost predicate LeaderMatches(abs: Abs, n: ServerId, m: Node) {
    m.role == Leader ==>
      && m.term in abs.chronicle && m.term in abs.leader && abs.leader[m.term] == n
      && |m.log| <= Acked(abs, m.term, n)
      && m.matchIndex.Keys == abs.voters - {n} == m.nextIndex.Keys
      && (forall p :: p in m.matchIndex ==> m.matchIndex[p] <= Acked(abs, m.term, p))
      && (forall p :: p in m.nextIndex ==> 1 <= m.nextIndex[p] <= |m.log| + 1)
  }

  ghost predicate CommitMatches(abs: Abs, m: Node, high: nat, stable: nat, target: nat) {
    && m.commitIndex <= high && stable <= high && target <= high
    && high <= |m.log|
    && Committed(abs, m.log[..high], m.term)
  }

  ghost predicate ServerOk(s: Sys, g: Shadow, n: ServerId)
    requires Matches(s, g) && n in s.nodes
  {
    && VoteMatches(g.abs, n, s.nodes[n])
    && LeaderMatches(g.abs, n, s.nodes[n])
    && CommitMatches(g.abs, s.nodes[n], g.high[n], s.stable[n], s.target[n])
  }

  /** The log has e at index i, at or below the mark. */
  ghost predicate Holds(log: Log, high: nat, i: nat, e: LogEntry) {
    1 <= i <= high <= |log| && log[i - 1] == e
  }

  ghost predicate AppliedAt(s: Sys, g: Shadow, x: (ServerId, nat, LogEntry)) {
    x.0 in s.nodes && x.0 in g.high && Holds(s.nodes[x.0].log, g.high[x.0], x.1, x.2)
  }

  ghost predicate AppliedOk(s: Sys, g: Shadow) {
    forall x :: x in s.applied ==> AppliedAt(s, g, x)
  }

  // ---------------------------------------------------------------------------
  // What a packet stands for

  ghost predicate PacketOk(abs: Abs, p: Packet) {
    && p.src in abs.voters && p.dst in abs.voters && p.src != p.dst
    && match p
       case VoteCall(c, _, req) =>
         req.candidate == c &&
         (!req.preVote ==>
            && (req.term, c) in abs.ballots && abs.ballots[(req.term, c)].candidate == c
            && |abs.ballots[(req.term, c)].log| == req.lastIndex
            && LastTerm(abs.ballots[(req.term, c)].log) == req.lastTerm)
       case VoteReply(v, c, preVote, resp) =>
         !preVote && resp.granted ==> (resp.term, v) in abs.ballots && abs.ballots[(resp.term, v)].candidate == c
       case AppendCall(l, _, req) => AppendOk(abs, l, req)
       case AppendReply(f, l, resp, reqTerm, lastSent) =>
         resp.success ==> lastSent <= Acked(abs, reqTerm, f)
  }

  /** An append request quotes its term's chronicle, and its commit index is committed there. */
  ghost predicate AppendOk(abs: Abs, l: ServerId, req: AppendReq) {
    && req.leaderId == l
    && req.term in abs.chronicle && req.term in abs.leader && abs.leader[req.term] == l
    && var c := abs.chronicle[req.term];
       && req.prevIndex + |req.entries| <= |c|
       && req.entries == c[req.prevIndex..req.prevIndex + |req.entries|]
       && (req.prevIndex > 0 ==> c[req.prevIndex - 1].term == req.prevTerm)
       && req.leaderCommit <= |c|
       && Committed(abs, c[..req.leaderCommit], req.term)
  }

  ghost predicate NetOk(abs: Abs, net: set<Packet>) {
    forall p :: p in net ==> PacketOk(abs, p)
  }

  ghost predicate Refines(s: Sys, g: Shadow) {
    && Matches(s, g)
    && Sound(g.abs)
    && (forall n :: n in s.nodes ==> ServerOk(s, g, n))
    && NetOk(g.abs, s.net)
    && AppliedOk(s, g)
  }

  // ---------------------------------------------------------------------------
  // History only grows, so packets and other servers stay right

  lemma PacketStays(abs: Abs, abs': Abs, p: Packet)
    requires Evolves(abs, abs') && PacketOk(abs, p)
    ensures PacketOk(abs', p)
  {
    match p
    case VoteCall(_, _, _) =>
    case VoteReply(_, _, _, _) =>
    case AppendCall(l, _, req) => AppendStays(abs, abs', l, req);
    case AppendReply(f, _, resp, t, k) =>
      if resp.success && k > 0 {
        assert (t, f) in abs.acked;
      }
  }

  lemma AppendStays(abs: Abs, abs': Abs, l: ServerId, req: AppendReq)
    requires Evolves(abs, abs') && AppendOk(abs, l, req)
    ensures AppendOk(abs', l, req)
  {
    var c, c' := abs.chronicle[req.term], abs'.chronicle[req.term];
    assert c'[..|c|] == c;
    assert c'[req.prevIndex..req.prevIndex + |req.entries|] == c[req.prevIndex..req.prevIndex + |req.entries|];
    assert c'[..req.leaderCommit] == c[..req.leaderCommit];
    CommittedEvolves(abs, abs', c[..req.leaderCommit], req.term, req.term);
  }

  /** Only server n votes or acknowledges in this step. */
  ghost predicate OnlyBy(abs: Abs, abs': Abs, n: ServerId) {
    && Evolves(abs, abs')
    && (forall t, v :: (t, v) in abs'.ballots && v != n ==> (t, v) in abs.ballots)
    && (forall m :: m in abs.voters && m != n ==> abs'.term[m] == abs.term[m] && abs'.log[m] == abs.log[m])
  }

  lemma VoteStays(abs: Abs, abs': Abs, n: ServerId, id: ServerId, m: Node)
    requires OnlyBy(abs, abs', n) && id != n && VoteMatches(abs, id, m)
    ensures VoteMatches(abs', id, m)
  {
  }

  lemma LeaderStays(abs: Abs, abs': Abs, id: ServerId, m: Node)
    requires Evolves(abs, abs') && LeaderMatches(abs, id, m)
    ensures LeaderMatches(abs', id, m)
  {
    if m.role == Leader {
      assert (m.term, id) in abs.acked || |m.log| == 0;
      forall p | p in m.matchIndex ensures m.matchIndex[p] <= Acked(abs', m.term, p) {
        if m.matchIndex[p] > 0 {
          assert (m.term, p) in abs.acked;
        }
      }
    }
  }

  lemma CommitStays(abs: Abs, abs': Abs, m: Node, high: nat, stable: nat, target: nat)
    requires Evolves(abs, abs') && CommitMatches(abs, m, high, stable, target)
    ensures CommitMatches(abs', m, high, stable, target)
  {
    CommittedEvolves(abs, abs', m.log[..high], m.term, m.term);
  }

  // ---------------------------------------------------------------------------
  // One server acts

  /** Server n is now m, with abs the history after its step. */
  ghost predicate NodeOk(abs: Abs, n: ServerId, m: Node, high: nat, stable: nat, target: nat) {
    && Shape(abs) && n in abs.voters && abs.term[n] == m.term && abs.log[n] == m.log
    && VoteMatches(abs, n, m)
    && LeaderMatches(abs, n, m)
    && CommitMatches(abs, m, high, stable, target)
  }

  /** The system after n became m, with new history and packets. */
  ghost predicate Steps(s: Sys, s': Sys, g: Shadow, g': Shadow, n: ServerId, m: Node) {
    && Wired(s) && n in s.nodes && n in g.high && s.nodes.Keys <= g.high.Keys
    && s'.servers == s.servers
    && s'.nodes.Keys == s.nodes.Keys && s'.nodes[n] == m
    && (forall o :: o in s.nodes && o != n ==> s'.nodes[o] == s.nodes[o])
    && s'.stable.Keys == s.stable.Keys && s'.target.Keys == s.target.Keys
    && (forall o :: o in s.nodes && o != n ==> s'.stable[o] == s.stable[o] && s'.target[o] == s.target[o])
    && g'.high.Keys == g.high.Keys
    && (forall o :: o in s.nodes && o != n ==> g'.high[o] == g.high[o])
    && g.high[n] <= g'.high[n]
    && g.high[n] <= |s.nodes[n].log| && g.high[n] <= |m.log| && m.log[..g.high[n]] == s.nodes[n].log[..g.high[n]]
  }

  lemma OthersStay(s: Sys, s': Sys, g: Shadow, g': Shadow, n: ServerId, m: Node, o: ServerId)
    requires Matches(s, g) && Matches(s', g') && Steps(s, s', g, g', n, m) && OnlyBy(g.abs, g'.abs, n)
    requires o in s.nodes && o != n && ServerOk(s, g, o)
    ensures ServerOk(s', g', o)
  {
    VoteStays(g.abs, g'.abs, n, o, s.nodes[o]);
    LeaderStays(g.abs, g'.abs, o, s.nodes[o]);
    CommitStays(g.abs, g'.abs, s.nodes[o], g.high[o], s.stable[o], s.target[o]);
  }

  lemma HoldsStays(log: Log, log': Log, high: nat, high': nat, i: nat, e: LogEntry)
    requires Holds(log, high, i, e) && high <= high' <= |log'| && log'[..high] == log[..high]
    ensures Holds(log', high', i, e)
  {
    assert log'[..high][i - 1] == log[..high][i - 1];
  }

  lemma AppliedElsewhere(s: Sys, s': Sys, g: Shadow, g': Shadow, n: ServerId, m: Node, x: (ServerId, nat, LogEntry))
    requires Steps(s, s', g, g', n, m) && AppliedAt(s, g, x) && x.0 != n
    ensures AppliedAt(s', g', x)
  {
  }

  lemma AppliedHere(s: Sys, s': Sys, g: Shadow, g': Shadow, n: ServerId, m: Node, x: (ServerId, nat, LogEntry))
    requires Steps(s, s', g, g', n, m) && AppliedAt(s, g, x) && x.0 == n && g'.high[n] <= |m.log|
    ensures AppliedAt(s', g', x)
  {
    HoldsStays(s.nodes[n].log, m.log, g.high[n], g'.high[n], x.1, x.2);
  }

  lemma AppliedNow(s: Sys, s': Sys, g: Shadow, g': Shadow, n: ServerId, m: Node, x: (ServerId, nat, LogEntry))
    requires Steps(s, s', g, g', n, m) && x.0 == n && Holds(m.log, g'.high[n], x.1, x.2)
    ensures AppliedAt(s', g', x)
  {
  }

  lemma AppliedStays(s: Sys, s': Sys, g: Shadow, g': Shadow, n: ServerId, m: Node)
    requires Steps(s, s', g, g', n, m) && AppliedOk(s, g) && g'.high[n] <= |m.log|
    requires forall x :: x in s'.applied && x !in s.applied ==> x.0 == n && Holds(m.log, g'.high[n], x.1, x.2)
    ensures AppliedOk(s', g')
  {
    forall x | x in s'.applied ensures AppliedAt(s', g', x) {
      if x !in s.applied {
        AppliedNow(s, s', g, g', n, m, x);
      } else if x.0 == n {
        AppliedHere(s, s', g, g', n, m, x);
      } else {
        AppliedElsewhere(s, s', g, g', n, m, x);
      }
    }
  }

  lemma MatchesStays(s: Sys, s': Sys, g: Shadow, g': Shadow, n: ServerId, m: Node)
    requires Matches(s, g) && Steps(s, s', g, g', n, m) && OnlyBy(g.abs, g'.abs, n)
    requires g'.abs.term[n] == m.term && g'.abs.log[n] == m.log
    ensures Matches(s', g')
  {
    forall o | o in s'.nodes ensures g'.abs.term[o] == s'.nodes[o].term && g'.abs.log[o] == s'.nodes[o].log {
      if o != n {
        assert s'.nodes[o] == s.nodes[o];
      }
    }
  }

  lemma ServersStay(s: Sys, s': Sys, g: Shadow, g': Shadow, n: ServerId, m: Node)
    requires Matches(s, g) && Matches(s', g') && Steps(s, s', g, g', n, m) && OnlyBy(g.abs, g'.abs, n)
    requires forall o :: o in s.nodes ==> ServerOk(s, g, o)
    requires NodeOk(g'.abs, n, m, g'.high[n], s'.stable[n], s'.target[n])
    ensures forall o :: o in s'.nodes ==> ServerOk(s', g', o)
  {
    forall o | o in s'.nodes ensures ServerOk(s', g', o) {
      if o != n {
        OthersStay(s, s', g, g', n, m, o);
      }
    }
  }

  lemma NetGrows(abs: Abs, abs': Abs, net: set<Packet>, net': set<Packet>)
    requires Evolves(abs, abs') && NetOk(abs, net)
    requires forall p :: p in net' && p !in net ==> PacketOk(abs', p)
    ensures NetOk(abs', net')
  {
    forall p | p in net' ensures PacketOk(abs', p) {
      if p in net {
        PacketStays(abs, abs', p);
      }
    }
  }

  /** If the acting server and its packets are right afterwards, the whole system is. */
  lemma Assemble(s: Sys, s': Sys, g: Shadow, g': Shadow, n: ServerId, m: Node)
    requires Refines(s, g) && Steps(s, s', g, g', n, m)
    requires Sound(g'.abs) && OnlyBy(g.abs, g'.abs, n)
    requires NodeOk(g'.abs, n, m, g'.high[n], s'.stable[n], s'.target[n])
    requires forall p :: p in s'.net && p !in s.net ==> PacketOk(g'.abs, p)
    requires forall x :: x in s'.applied && x !in s.applied ==> x.0 == n && Holds(m.log, g'.high[n], x.1, x.2)
    ensures Refines(s', g')
  {
    MatchesStays(s, s', g, g', n, m);
    ServersStay(s, s', g, g', n, m);
    NetGrows(g.abs, g'.abs, s.net, s'.net);
    AppliedStays(s, s', g, g', n, m);
  }
}
