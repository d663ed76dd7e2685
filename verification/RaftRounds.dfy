/** Progress over runs: requests that must be accepted are, and from every state that a run can reach
    the network and the servers have a way to elect a leader, commit a new command and apply it on
    every server. */
module RaftRounds {
  import opened LogTypes
  import opened Membership
  import opened RaftNode
  import opened RaftProtocol
  import opened AbstractRaft
  import opened AbstractSafety
  import opened RaftRefinement
  import opened RaftTheorems
  import opened RaftProgress
  import RaftCatchUp
  import RaftRedelivery

  // ---------------------------------------------------------------------------
  // States of runs

  /** Some history explains the state; every state of a run has one. */
  ghost predicate Live(s: Sys) {
    exists g :: Tracks(s, g)
  }

  lemma RunIsLive(run: seq<Sys>, acts: seq<Action>, k: nat)
    requires IsRun(run, acts) && k < |run|
    ensures Live(run[k])
  {
    var gs := RunHasShadows(run, acts);
    assert Tracks(run[k], gs[k]);
  }

  /** Committed entries at or below the receiver's commit index are in every later leader's log. */
  lemma CommittedQuoted(s: Sys, g: Shadow, p: Packet)
    requires Tracks(s, g) && p in s.net && p.AppendCall? && p.dst in s.nodes && p.append.term >= s.nodes[p.dst].term
    ensures PacketOk(g.abs, p) && s.nodes[p.dst].commitIndex <= |s.nodes[p.dst].log|
    ensures var me := s.nodes[p.dst];
            me.log[..me.commitIndex] <= g.abs.chronicle[p.append.term]
  {
    PacketIn(s, g, p);
    CommitRecorded(s, g, p.dst);
    ActorOk(s, g, p.dst);
    var me := s.nodes[p.dst];
    LeaderCompleteness(g.abs, me.log[..me.commitIndex], me.term, p.append.term) by { Open(g.abs); }
  }

  lemma QuotedIsSpared(log: Log, commitIndex: nat, c: Log, req: AppendReq)
    requires commitIndex <= |log| && log[..commitIndex] <= c && req.prevIndex + |req.entries| <= |c|
    requires req.entries == c[req.prevIndex..req.prevIndex + |req.entries|]
    ensures SparesCommitted(log, commitIndex, req)
  {
    forall j | 0 <= j < |req.entries| && req.prevIndex + j < |log| && req.prevIndex + j < commitIndex
      ensures log[req.prevIndex + j].term == req.entries[j].term
    {
      assert req.entries[j] == c[req.prevIndex + j] == log[..commitIndex][req.prevIndex + j];
    }
  }

  lemma RequestNumbered(s: Sys, g: Shadow, p: Packet)
    requires Tracks(s, g) && p in s.net && p.AppendCall?
    ensures Numbered(p.append.entries, p.append.prevIndex + 1)
  {
    PacketIn(s, g, p);
    assert Sound(g.abs) by { OpenSys(s, g); }
    RaftRedelivery.RequestInSequence(g.abs, p.src, p.append) by { Open(g.abs); }
  }

  lemma LiveRequestAccepted(s: Sys, p: Packet, ticks: int)
    requires Live(s) && p in s.net && p.AppendCall? && p.dst in s.nodes
    ensures Numbered(p.append.entries, p.append.prevIndex + 1)
    ensures HandleAppend(Cfg(s, p.dst), s.nodes[p.dst], p.append, ticks).1.success <==>
              p.append.term >= s.nodes[p.dst].term && PreviousMatches(s.nodes[p.dst].log, p.append)
  {
    var g :| Tracks(s, g);
    RequestNumbered(s, g, p);
    AppendAcceptedIff(Cfg(s, p.dst), s.nodes[p.dst], p.append, ticks);
    if p.append.term >= s.nodes[p.dst].term {
      CommittedQuoted(s, g, p);
      var me := s.nodes[p.dst];
      QuotedIsSpared(me.log, me.commitIndex, g.abs.chronicle[p.append.term], p.append);
    }
  }

  /** In every run, a server accepts an append request exactly when it is not of an older term and the
      previous entry matches: the commit index never stands in the way. */
  lemma RequestAcceptedIff(run: seq<Sys>, acts: seq<Action>, k: nat, p: Packet, ticks: int)
    requires IsRun(run, acts) && k < |run| && p in run[k].net && p.AppendCall? && p.dst in run[k].nodes
    ensures HandleAppend(Cfg(run[k], p.dst), run[k].nodes[p.dst], p.append, ticks).1.success <==>
              p.append.term >= run[k].nodes[p.dst].term && PreviousMatches(run[k].nodes[p.dst].log, p.append)
  {
    RunIsLive(run, acts, k);
    LiveRequestAccepted(run[k], p, ticks);
  }

  lemma AckedSlice(s: Sys, g: Shadow, p: Packet, resp: AppendResp)
    requires Tracks(s, g) && p in s.net && p.AppendCall? && p.dst in s.nodes && resp.success
    requires AppendReply(p.dst, p.src, resp, p.append.term, LastSent(p.append)) in s.net
    requires p.append.term == s.nodes[p.dst].term && p.append.entries != []
    ensures p.append.prevIndex + |p.append.entries| <= |s.nodes[p.dst].log|
    ensures p.append.entries == s.nodes[p.dst].log[p.append.prevIndex..p.append.prevIndex + |p.append.entries|]
  {
    var req, n := p.append, p.dst;
    PacketIn(s, g, p);
    ActorOk(s, g, n);
    RaftRedelivery.AcceptedIsAcked(s, g, p, resp);
    LastSentCovered(g.abs, p.src, req) by { Open(g.abs); }
    RaftRedelivery.AckedPrefix(g.abs, n, req.term, req.prevIndex + |req.entries|) by { Open(g.abs); }
  }

  /** And it then holds every entry of the request, as it was sent, at its own index. */
  lemma AcceptedIsStored(run: seq<Sys>, acts: seq<Action>, k: nat, p: Packet, ticks: int)
    requires IsRun(run, acts) && k < |acts| && acts[k] == DeliverAppend(p, ticks)
    requires p.append.term >= run[k].nodes[p.dst].term && PreviousMatches(run[k].nodes[p.dst].log, p.append)
    ensures p.dst in run[k + 1].nodes && p.append.prevIndex + |p.append.entries| <= |run[k + 1].nodes[p.dst].log|
    ensures p.append.entries
         == run[k + 1].nodes[p.dst].log[p.append.prevIndex..p.append.prevIndex + |p.append.entries|]
  {
    var n, req := p.dst, p.append;
    var cfg, me := Cfg(run[k], n), run[k].nodes[n];
    RunIsLive(run, acts, k);
    LiveRequestAccepted(run[k], p, ticks);
    var d := AcceptedAppend(cfg, me, req, ticks);
    var (m, resp) := HandleAppend(cfg, me, req, ticks);
    DeliveryStep(run[k], p, ticks);
    if req.entries != [] {
      var gs := RunHasShadows(run, acts);
      AckedSlice(run[k + 1], gs[k + 1], p, resp);
    }
  }

  lemma DeliveryStep(s: Sys, p: Packet, ticks: int)
    requires Enabled(s, DeliverAppend(p, ticks))
    ensures var (m, resp) := HandleAppend(Cfg(s, p.dst), s.nodes[p.dst], p.append, ticks);
            Act(s, DeliverAppend(p, ticks))
              == Updated(s, p.dst, m, {AppendReply(p.dst, p.src, resp, p.append.term, LastSent(p.append))})
  {
  }
}
