/** Handling an append request: the follower's log becomes the merge of its own log with what
    the request quotes, and nothing committed is touched. */
module RaftFollower {
  import opened LogTypes
  import opened Membership
  import opened RaftNode
  import opened RaftProtocol
  import opened AbstractRaft
  import opened AbstractSafety
  import opened RaftRefinement
  import opened RaftSimulation
  import opened RaftReplication

  // ---------------------------------------------------------------------------
  // What Store does to a log, given Log Matching with the leader's

  /** Equal terms at an index mean equal logs up to it. */
  ghost predicate Matching(log: Log, c: Log) {
    forall k :: 0 <= k < |log| && k < |c| && log[k].term == c[k].term ==> log[..k + 1] == c[..k + 1]
  }

  /** A request that quotes leader log c from prevIndex on and passed the consistency check. */
  ghost predicate Quotes(log: Log, c: Log, req: AppendReq) {
    && Numbered(c, 1)
    && req.prevIndex <= |log| && req.prevIndex + |req.entries| <= |c|
    && req.entries == c[req.prevIndex..req.prevIndex + |req.entries|]
    && (req.prevIndex > 0 ==> log[req.prevIndex - 1].term == c[req.prevIndex - 1].term)
  }

  function Reach(req: AppendReq): nat {
    req.prevIndex + |req.entries|
  }

  lemma ReachIsLastCovered(log: Log, c: Log, req: AppendReq)
    requires Quotes(log, c, req)
    ensures LastCovered(req) == Reach(req)
  {
  }

  /** Entries found present extend the agreement with the leader's log. */
  lemma AgreeUpTo(log: Log, c: Log, prev: nat, k: nat)
    requires Matching(log, c) && prev <= k <= |c| && prev <= |log|
    requires prev > 0 ==> log[prev - 1].term == c[prev - 1].term
    requires k > prev ==> k <= |log| && log[k - 1].term == c[k - 1].term
    ensures k <= |log| && log[..k] == c[..k]
  {
    if k > 0 {
      assert log[k - 1].term == c[k - 1].term;
    }
  }

  lemma PresentAgrees(log: Log, c: Log, req: AppendReq, j: nat)
    requires Quotes(log, c, req) && j < |req.entries|
    ensures req.entries[j] == c[req.prevIndex + j]
    ensures Present(log, req.entries[j]) <==>
              req.prevIndex + j < |log| && log[req.prevIndex + j].term == c[req.prevIndex + j].term
  {
  }

  lemma FoundAgrees(log: Log, c: Log, req: AppendReq, i: nat)
    requires Matching(log, c) && Quotes(log, c, req) && i <= |req.entries|
    requires i > 0 ==> Present(log, req.entries[i - 1])
    requires i < |req.entries| ==> !Present(log, req.entries[i])
    ensures var k := req.prevIndex + i;
            && k <= |log| && k <= |c| && log[..k] == c[..k]
            && (k < Reach(req) ==> |log| == k || log[k].term != c[k].term)
  {
    if i > 0 {
      PresentAgrees(log, c, req, i - 1);
    }
    AgreeUpTo(log, c, req.prevIndex, req.prevIndex + i);
    if i < |req.entries| {
      PresentAgrees(log, c, req, i);
    }
  }

  /** Where the logs part before hi, the merge is the leader's prefix. */
  lemma Parting(log: Log, c: Log, k: nat, hi: nat)
    requires k < hi <= |c| && k <= |log| && log[..k] == c[..k]
    requires |log| == k || log[k].term != c[k].term
    ensures Merged(log, c[..hi]) == c[..hi] == log[..k] + c[k..hi]
    ensures |log| == k ==> log[..k] == log
  {
  }

  /** The commit index after a stored request. */
  function Followed(commit: nat, req: AppendReq): nat {
    if req.leaderCommit > commit then Min(req.leaderCommit, Reach(req)) else commit
  }

  /** Either a refusal without a change, because the request contradicts a committed entry, or
      exactly the merge of the two logs. */
  ghost predicate Outcome(m: Node, c: Log, req: AppendReq, refused: AppendResp, r: (Node, AppendResp))
    requires Reach(req) <= |c|
  {
    if r.1.success then
      && r.0 == m.(log := Merged(m.log, c[..Reach(req)]), commitIndex := Followed(m.commitIndex, req))
      && r.1 == AppendResp(m.term, true, |r.0.log|, 0)
    else
      r == (m, refused.(index := m.commitIndex + 1))
  }

  lemma StoreMerges(m: Node, c: Log, req: AppendReq, refused: AppendResp)
    requires Matching(m.log, c) && Quotes(m.log, c, req) && !refused.success
    ensures Outcome(m, c, req, refused, Store(m, req, refused))
  {
    StoreFromMerges(m, c, req, refused, FirstNew(m.log, req.entries));
  }

  lemma StoreFromMerges(m: Node, c: Log, req: AppendReq, refused: AppendResp, i: nat)
    requires Matching(m.log, c) && Quotes(m.log, c, req) && !refused.success && i <= |req.entries|
    requires i > 0 ==> Present(m.log, req.entries[i - 1])
    requires i < |req.entries| ==> !Present(m.log, req.entries[i])
    ensures Outcome(m, c, req, refused, StoreFrom(m, req, i, refused))
  {
    FoundAgrees(m.log, c, req, i);
    ReachIsLastCovered(m.log, c, req);
    if i < |req.entries| {
      RestOfQuote(m.log, c, req, i);
      StoreNew(m, c, req, req.entries[i..], refused, req.prevIndex + i);
    } else {
      StoreNothing(m, c, req, refused);
    }
  }

  lemma StoreNothing(m: Node, c: Log, req: AppendReq, refused: AppendResp)
    requires Reach(req) <= |c| && LastCovered(req) == Reach(req) <= |m.log| && m.log[..Reach(req)] == c[..Reach(req)]
    ensures Outcome(m, c, req, refused, Stored(m, req))
  {
    assert c[..Reach(req)] <= m.log;
  }

  lemma StoreNew(m: Node, c: Log, req: AppendReq, rest: Log, refused: AppendResp, k: nat)
    requires !refused.success && LastCovered(req) == Reach(req) && k < Reach(req) <= |c|
    requires rest == c[k..Reach(req)] && rest[0].index == k + 1 && Consecutive(rest, k + 1)
    requires k <= |m.log| && m.log[..k] == c[..k] && (|m.log| == k || m.log[k].term != c[k].term)
    ensures Outcome(m, c, req, refused, StoreRest(m, req, rest, refused))
  {
    Parting(m.log, c, k, Reach(req));
  }

  lemma RestOfQuote(log: Log, c: Log, req: AppendReq, i: nat)
    requires Quotes(log, c, req) && i < |req.entries|
    ensures var k, rest := req.prevIndex + i, req.entries[i..];
            rest == c[k..Reach(req)] && rest[0].index == k + 1 && Consecutive(rest, k + 1)
  {
    assert req.entries[i..] == c[req.prevIndex + i..Reach(req)];
  }

  // ---------------------------------------------------------------------------
  // The step

  lemma LogsMatch(abs: Abs, n: ServerId, t: nat)
    requires Shape(abs) && LogsFaithful(abs) && ChroniclesFaithful(abs) && n in abs.voters && t in abs.chronicle
    ensures Matching(abs.log[n], abs.chronicle[t])
  {
    var l, c := abs.log[n], abs.chronicle[t];
    forall k | 0 <= k < |l| && k < |c| && l[k].term == c[k].term ensures l[..k + 1] == c[..k + 1] {
      LogMatching(abs, l, c, k);
    }
  }

  /** The merge keeps everything committed, by Leader Completeness. */
  lemma MergeKeepsCommitted(abs: Abs, n: ServerId, m: Node, hi: nat, high: nat)
    requires Shape(abs) && CanAccept(abs, n, hi) && abs.term[n] == m.term
    requires high <= |m.log| && m.log[..high] <= abs.chronicle[m.term]
    ensures var l := Merged(m.log, abs.chronicle[m.term][..hi]); KeepsPrefix(m.log, l, high)
  {
    MergeKeeps(m.log[..high], m.log, abs.chronicle[m.term], hi);
  }

  lemma AcceptCommit(abs: Abs, abs': Abs, m: Node, m': Node, c: Log, hi: nat, commit: nat, high: nat, stable: nat, target: nat)
    requires Evolves(abs, abs') && CommitMatches(abs, m, high, stable, target)
    requires m'.term == m.term && KeepsPrefix(m.log, m'.log, high)
    requires hi <= |c| && c[..hi] <= m'.log && commit <= |c| && Committed(abs, c[..commit], m.term)
    requires m'.commitIndex == m.commitIndex || m'.commitIndex == Min(commit, hi)
    ensures CommitMatches(abs', m', Max(high, m'.commitIndex), stable, target)
  {
    CommittedEvolves(abs, abs', m.log[..high], m.term, m.term);
    if m'.commitIndex > high {
      var k := m'.commitIndex;
      assert m'.log[..k] == c[..k];
      assert c[..k] <= c[..commit];
      CommittedPrefix(abs, c[..commit], c[..k], m.term);
      CommittedEvolves(abs, abs', c[..k], m.term, m.term);
    }
  }

  lemma AcceptStep(abs: Abs, n: ServerId, m: Node, m': Node, hi: nat, commit: nat, high: nat, stable: nat, target: nat)
    requires Shape(abs) && CanAccept(abs, n, hi) && NodeOk(abs, n, m, high, stable, target)
    requires m'.log == Merged(m.log, abs.chronicle[m.term][..hi]) && m' == m.(log := m'.log, commitIndex := m'.commitIndex)
    requires KeepsPrefix(m.log, m'.log, high)
    requires m'.commitIndex == m.commitIndex || m'.commitIndex == Min(commit, hi)
    requires commit <= |abs.chronicle[m.term]| && Committed(abs, abs.chronicle[m.term][..commit], m.term)
    ensures NodeStep(abs, Accept(abs, n, hi), n, m, m', high, Max(high, m'.commitIndex), stable, target)
  {
    var abs' := Accept(abs, n, hi);
    AcceptEvolves(abs, n, hi);
    AcceptCommit(abs, abs', m, m', abs.chronicle[m.term], hi, commit, high, stable, target);
    SameBallots(abs, abs', n, m, m');
    NotLeading(abs, abs', n, m, m');
  }

  /** A follower of its term's leader is not that leader. */
  lemma NotLeading(abs: Abs, abs': Abs, n: ServerId, m: Node, m': Node)
    requires LeaderMatches(abs, n, m) && m.term in abs.leader && abs.leader[m.term] != n && m'.role == m.role
    ensures LeaderMatches(abs', n, m')
  {
  }

  /** What StoreMerges needs, from what the request stands for. */
  lemma RequestQuotes(abs: Abs, n: ServerId, m: Node, l: ServerId, req: AppendReq)
    requires Shape(abs) && LogsFaithful(abs) && ChroniclesFaithful(abs) && n in abs.voters && abs.log[n] == m.log
    requires AppendOk(abs, l, req)
    requires req.prevIndex <= |m.log| && (req.prevIndex > 0 ==> m.log[req.prevIndex - 1].term == req.prevTerm)
    ensures Matching(m.log, abs.chronicle[req.term]) && Quotes(m.log, abs.chronicle[req.term], req)
  {
    LogsMatch(abs, n, req.term);
  }

  /** A request of the server's own term that passed the consistency check. */
  lemma StoreStep(abs: Abs, n: ServerId, m: Node, l: ServerId, req: AppendReq, refused: AppendResp,
                  high: nat, stable: nat, target: nat) returns (abs': Abs, high': nat)
    requires Sound(abs) && NodeOk(abs, n, m, high, stable, target)
    requires AppendOk(abs, l, req) && l != n && req.term == m.term && !refused.success
    requires req.prevIndex <= |m.log| && (req.prevIndex > 0 ==> m.log[req.prevIndex - 1].term == req.prevTerm)
    ensures Sound(abs') && NodeStep(abs, abs', n, m, Store(m, req, refused).0, high, high', stable, target)
    ensures Store(m, req, refused).1.success ==> Reach(req) <= Acked(abs', req.term, n)
  {
    RequestQuotes(abs, n, m, l, req) by { Open(abs); }
    if Store(m, req, refused).1.success {
      LeaderCompleteness(abs, m.log[..high], m.term, m.term) by { Open(abs); }
      abs' := Accept(abs, n, Reach(req));
      AcceptSound(abs, n, Reach(req));
      high' := StoredStep(abs, n, m, l, req, refused, high, stable, target);
    } else {
      abs', high' := abs, high;
      StoreMerges(m, abs.chronicle[req.term], req, refused);
      QuietStep(abs, n, m, m, high, stable, target);
    }
  }

  lemma StoredStep(abs: Abs, n: ServerId, m: Node, l: ServerId, req: AppendReq, refused: AppendResp,
                   high: nat, stable: nat, target: nat) returns (high': nat)
    requires Shape(abs) && NodeOk(abs, n, m, high, stable, target)
    requires AppendOk(abs, l, req) && l != n && req.term == m.term && !refused.success
    requires Matching(m.log, abs.chronicle[req.term]) && Quotes(m.log, abs.chronicle[req.term], req)
    requires Store(m, req, refused).1.success && m.log[..high] <= abs.chronicle[m.term]
    ensures NodeStep(abs, Accept(abs, n, Reach(req)), n, m, Store(m, req, refused).0, high, high', stable, target)
    ensures Reach(req) <= Acked(Accept(abs, n, Reach(req)), req.term, n)
  {
    var m' := Store(m, req, refused).0;
    StoreMerges(m, abs.chronicle[req.term], req, refused);
    high' := Max(high, m'.commitIndex);
    MergeKeepsCommitted(abs, n, m, Reach(req), high);
    AcceptStep(abs, n, m, m', Reach(req), req.leaderCommit, high, stable, target);
  }

  /** Roles and timers after the term was adopted. */
  lemma HeededStep(abs: Abs, cfg: Config, n: ServerId, m: Node, m1: Node, req: AppendReq, ticks: int,
                   high: nat, stable: nat, target: nat)
    requires Shape(abs) && m1 == (if req.term > m.term then Adopt(m, req.term) else m)
    requires NodeOk(abs, n, m1, high, stable, target)
    ensures NodeStep(abs, abs, n, m1, Heed(cfg, m, req, ticks), high, high, stable, target)
  {
    QuietStep(abs, n, m1, Heed(cfg, m, req, ticks), high, stable, target);
  }

  lemma HeedStep(abs: Abs, cfg: Config, n: ServerId, m: Node, req: AppendReq, ticks: int,
                 high: nat, stable: nat, target: nat) returns (abs': Abs)
    requires Sound(abs) && NodeOk(abs, n, m, high, stable, target) && n != "" && req.term >= m.term
    ensures Sound(abs') && NodeStep(abs, abs', n, m, Heed(cfg, m, req, ticks), high, high, stable, target)
  {
    var m1, m2 := if req.term > m.term then Adopt(m, req.term) else m, Heed(cfg, m, req, ticks);
    abs' := MaybeAdoptStep(abs, n, m, req.term, high, stable, target);
    HeededStep(abs', cfg, n, m, m1, req, ticks, high, stable, target);
    StepTrans(abs, abs', abs', n, m, m1, m2, high, high, high, stable, target);
  }

  lemma CheckStep(abs: Abs, n: ServerId, m: Node, l: ServerId, req: AppendReq, refused: AppendResp,
                  high: nat, stable: nat, target: nat) returns (abs': Abs, high': nat)
    requires Sound(abs) && NodeOk(abs, n, m, high, stable, target)
    requires AppendOk(abs, l, req) && l != n && req.term == m.term && !refused.success
    ensures Sound(abs') && NodeStep(abs, abs', n, m, CheckAndStore(m, req, refused).0, high, high', stable, target)
    ensures CheckAndStore(m, req, refused).1.success ==> Reach(req) <= Acked(abs', req.term, n)
  {
    if req.prevIndex > |m.log| || (req.prevIndex > 0 && m.log[req.prevIndex - 1].term != req.prevTerm) {
      abs', high' := abs, high;
      QuietStep(abs, n, m, m, high, stable, target);
    } else {
      abs', high' := StoreStep(abs, n, m, l, req, refused, high, stable, target);
    }
  }

  lemma HeededAppendSim(abs: Abs, cfg: Config, n: ServerId, m: Node, l: ServerId, req: AppendReq, ticks: int,
                        high: nat, stable: nat, target: nat) returns (abs': Abs, high': nat)
    requires Sound(abs) && NodeOk(abs, n, m, high, stable, target) && n != "" && l != n && AppendOk(abs, l, req)
    requires req.term >= m.term
    ensures var r := CheckAndStore(Heed(cfg, m, req, ticks), req, AppendResp(m.term, false, 0, 0));
            && Sound(abs') && NodeStep(abs, abs', n, m, r.0, high, high', stable, target)
            && (r.1.success ==> Reach(req) <= Acked(abs', req.term, n))
  {
    var m1, refused := Heed(cfg, m, req, ticks), AppendResp(m.term, false, 0, 0);
    var m2 := CheckAndStore(m1, req, refused).0;
    var abs1 := HeedStep(abs, cfg, n, m, req, ticks, high, stable, target);
    AppendStays(abs, abs1, l, req);
    abs', high' := CheckStep(abs1, n, m1, l, req, refused, high, stable, target);
    StepTrans(abs, abs1, abs', n, m, m1, m2, high, high, high', stable, target);
  }

  lemma AppendSim(abs: Abs, cfg: Config, n: ServerId, m: Node, l: ServerId, req: AppendReq, ticks: int,
                  high: nat, stable: nat, target: nat) returns (abs': Abs, high': nat)
    requires Sound(abs) && NodeOk(abs, n, m, high, stable, target) && n != "" && l != n && AppendOk(abs, l, req)
    ensures var r := HandleAppend(cfg, m, req, ticks);
            && Sound(abs') && NodeStep(abs, abs', n, m, r.0, high, high', stable, target)
            && (r.1.success ==> Reach(req) <= Acked(abs', req.term, n))
  {
    if req.term < m.term {
      abs', high' := abs, high;
      QuietStep(abs, n, m, m, high, stable, target);
    } else {
      abs', high' := HeededAppendSim(abs, cfg, n, m, l, req, ticks, high, stable, target);
    }
  }
}
