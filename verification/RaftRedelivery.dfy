/** Append requests that the network delivers again, over whole runs (pkg/raft/raft.go:3090-3224). */
module RaftRedelivery {
  import opened LogTypes
  import opened Membership
  import opened RaftNode
  import opened RaftProtocol
  import opened AbstractRaft
  import opened AbstractSafety
  import opened RaftRefinement
  import opened RaftTheorems
  import RaftCatchUp

  lemma RequestInSequence(abs: Abs, l: ServerId, req: AppendReq)
    requires ChroniclesFaithful(abs) && AppendOk(abs, l, req)
    ensures RaftCatchUp.InSequence(req)
  {
    var c := abs.chronicle[req.term];
    forall i | 0 <= i < |req.entries| ensures req.entries[i].index == req.prevIndex + 1 + i {
      assert req.entries[i] == c[req.prevIndex + i];
    }
  }

  /** Every append request of a run numbers its entries from prevIndex + 1 on. */
  lemma RequestsInSequence(run: seq<Sys>, acts: seq<Action>, k: nat, p: Packet)
    requires IsRun(run, acts) && k < |run| && p in run[k].net && p.AppendCall?
    ensures RaftCatchUp.InSequence(p.append)
  {
    var gs := RunHasShadows(run, acts);
    PacketIn(run[k], gs[k], p);
    assert Sound(gs[k].abs) by { OpenSys(run[k], gs[k]); }
    RequestInSequence(gs[k].abs, p.src, p.append) by { Open(gs[k].abs); }
  }

  /** Handling a request of a run twice in a row is handling it once, in every field of the server. */
  lemma SecondDeliveryIsIdle(run: seq<Sys>, acts: seq<Action>, k: nat, p: Packet, ticks: int)
    requires IsRun(run, acts) && k < |run| && p in run[k].net && p.AppendCall? && p.dst in run[k].nodes
    ensures var cfg := Cfg(run[k], p.dst);
            var once := HandleAppend(cfg, run[k].nodes[p.dst], p.append, ticks).0;
            HandleAppend(cfg, once, p.append, ticks).0 == once
  {
    RequestsInSequence(run, acts, k, p);
    RaftCatchUp.RedeliveryIsIdle(Cfg(run[k], p.dst), run[k].nodes[p.dst], p.append, ticks);
  }

  ghost predicate AllPresent(log: Log, es: Log) {
    forall j :: 0 <= j < |es| ==> Present(log, es[j])
  }

  lemma SliceIsPresent(log: Log, c: Log, from: nat, to: nat)
    requires from <= to <= |c| && Numbered(c, 1) && c[..to] <= log
    ensures AllPresent(log, c[from..to])
  {
    forall j | 0 <= j < to - from ensures Present(log, c[from..to][j]) {
      assert c[from..to][j] == c[from + j] == c[..to][from + j];
    }
  }

  lemma AckedPrefix(abs: Abs, n: ServerId, t: nat, i: nat)
    requires Shape(abs) && AcksKept(abs) && n in abs.voters && t in abs.chronicle
    requires i <= Acked(abs, t, n) && i <= |abs.chronicle[t]| && abs.term[n] == t
    ensures abs.chronicle[t][..i] <= abs.log[n]
  {
  }

  /** The log of a server in term t still holds what it acknowledged of it. */
  lemma AckedIsHeld(abs: Abs, n: ServerId, t: nat, from: nat, to: nat)
    requires Shape(abs) && AcksKept(abs) && n in abs.voters && t in abs.chronicle && abs.term[n] == t
    requires from <= to <= Acked(abs, t, n) && to <= |abs.chronicle[t]| && Numbered(abs.chronicle[t], 1)
    ensures AllPresent(abs.log[n], abs.chronicle[t][from..to])
  {
    AckedPrefix(abs, n, t, to);
    SliceIsPresent(abs.log[n], abs.chronicle[t], from, to);
  }

  lemma NothingNew(m: Node, req: AppendReq, refused: AppendResp)
    requires AllPresent(m.log, req.entries)
    ensures CheckAndStore(m, req, refused).0.log == m.log
  {
    assert FirstNew(m.log, req.entries) == |req.entries|;
  }

  lemma NumberedChronicle(abs: Abs, t: nat)
    requires ChroniclesFaithful(abs) && t in abs.chronicle
    ensures Numbered(abs.chronicle[t], 1)
  {
  }

  lemma AckedIsPast(abs: Abs, n: ServerId, t: nat)
    requires Shape(abs) && AcksSound(abs) && Acked(abs, t, n) > 0 && n in abs.voters
    ensures t <= abs.term[n]
  {
    assert (t, n) in abs.acked;
  }

  /** A server that acknowledged a request has left its term or still holds its entries. */
  lemma AckedIsPresent(abs: Abs, n: ServerId, t: nat, from: nat, es: Log)
    requires Shape(abs) && AcksKept(abs) && AcksSound(abs) && n in abs.voters
    requires t in abs.chronicle && Numbered(abs.chronicle[t], 1)
    requires from + |es| <= |abs.chronicle[t]| && es == abs.chronicle[t][from..from + |es|]
    requires es != [] ==> from + |es| <= Acked(abs, t, n)
    ensures t < abs.term[n] || AllPresent(abs.log[n], es)
  {
    if es != [] && abs.term[n] <= t {
      AckedIsPast(abs, n, t);
      AckedIsHeld(abs, n, t, from, from + |es|);
    }
  }

  lemma PresentIsIdle(cfg: Config, m: Node, req: AppendReq, ticks: int)
    requires req.term < m.term || AllPresent(m.log, req.entries)
    ensures HandleAppend(cfg, m, req, ticks).0.log == m.log
  {
    if m.term <= req.term {
      NothingNew(Heed(cfg, m, req, ticks), req, AppendResp(m.term, false, 0, 0));
    }
  }

  lemma AckedLater(g: Shadow, g': Shadow, t: nat, n: ServerId)
    requires Advances(g, g')
    ensures Acked(g.abs, t, n) <= Acked(g'.abs, t, n)
  {
  }

  lemma RedeliveryStep(g: Shadow, cfg: Config, m: Node, p: Packet, ticks: int, stable: nat, target: nat)
    requires Sound(g.abs) && p.AppendCall? && PacketOk(g.abs, p) && p.dst in g.high
    requires NodeOk(g.abs, p.dst, m, g.high[p.dst], stable, target)
    requires LastSent(p.append) <= Acked(g.abs, p.append.term, p.dst)
    ensures HandleAppend(cfg, m, p.append, ticks).0.log == m.log
  {
    var req := p.append;
    LastSentCovered(g.abs, p.src, req) by { Open(g.abs); }
    NumberedChronicle(g.abs, req.term) by { Open(g.abs); }
    assert req.entries != [] ==> req.prevIndex + |req.entries| <= Acked(g.abs, req.term, p.dst);
    assert req.entries == g.abs.chronicle[req.term][req.prevIndex..req.prevIndex + |req.entries|];
    assert AcksKept(g.abs) && AcksSound(g.abs) by { Open(g.abs); }
    AckedIsPresent(g.abs, p.dst, req.term, req.prevIndex, req.entries);
    PresentIsIdle(cfg, m, req, ticks);
  }

  lemma AcceptedIsAcked(s: Sys, g: Shadow, p: Packet, resp: AppendResp)
    requires Tracks(s, g) && p.AppendCall? && resp.success
    requires AppendReply(p.dst, p.src, resp, p.append.term, LastSent(p.append)) in s.net
    ensures LastSent(p.append) <= Acked(g.abs, p.append.term, p.dst)
  {
    PacketIn(s, g, AppendReply(p.dst, p.src, resp, p.append.term, LastSent(p.append)));
  }

  lemma AckedIsIdle(s: Sys, g: Shadow, p: Packet, ticks: int)
    requires Tracks(s, g) && p.AppendCall? && p in s.net && p.dst in s.nodes
    requires LastSent(p.append) <= Acked(g.abs, p.append.term, p.dst)
    ensures HandleAppend(Cfg(s, p.dst), s.nodes[p.dst], p.append, ticks).0.log == s.nodes[p.dst].log
  {
    PacketIn(s, g, p);
    ActorOk(s, g, p.dst);
    RedeliveryStep(g, Cfg(s, p.dst), s.nodes[p.dst], p, ticks, s.stable[p.dst], s.target[p.dst]);
  }

  /** Once a server has accepted a request, delivering it again at any later moment of the run,
      after whatever other steps, restarts and terms, leaves its log alone. */
  lemma RedeliveryInRuns(run: seq<Sys>, acts: seq<Action>, j: nat, k: nat, p: Packet, ticks: int, ticks': int)
    requires IsRun(run, acts) && j < k < |acts| && acts[j] == DeliverAppend(p, ticks) && acts[k] == DeliverAppend(p, ticks')
    requires HandleAppend(Cfg(run[j], p.dst), run[j].nodes[p.dst], p.append, ticks).1.success
    ensures p.dst in run[k].nodes && p.dst in run[k + 1].nodes
    ensures run[k + 1].nodes[p.dst].log == run[k].nodes[p.dst].log
  {
    var gs := RunHasShadows(run, acts);
    var resp := HandleAppend(Cfg(run[j], p.dst), run[j].nodes[p.dst], p.append, ticks).1;
    AcceptedIsAcked(run[j + 1], gs[j + 1], p, resp);
    AckedLater(gs[j + 1], gs[k], p.append.term, p.dst);
    AckedIsIdle(run[k], gs[k], p, ticks');
  }
}
