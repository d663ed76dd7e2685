/** How a leader finds the point where a follower's log departs from its own
    (pkg/raft/raft.go:1321-1352, 1515-1529, 3133-3166), and what redelivered append requests do. */
module RaftCatchUp {
  import opened LogTypes
  import opened Membership
  import opened RaftNode
  import opened RaftProtocol
  import RaftTheorems

  // ---------------------------------------------------------------------------
  // The exchange

  ghost predicate TermsRise(l: Log) {
    forall i, j :: 0 <= i <= j < |l| ==> l[i].term <= l[j].term
  }

  /** Logs as Log Matching leaves them: equal terms at an index mean equal prefixes. */
  ghost predicate Comparable(a: Log, b: Log) {
    && TermsRise(a) && TermsRise(b)
    && forall i :: 0 <= i < |a| && i < |b| && a[i].term == b[i].term ==> a[..i + 1] == b[..i + 1]
  }

  /** How far two logs agree. */
  function Agreement(a: Log, b: Log): (k: nat)
    ensures k <= |a| && k <= |b| && a[..k] == b[..k]
    ensures k < |a| && k < |b| ==> a[k] != b[k]
  {
    if a == [] || b == [] || a[0] != b[0] then 0
    else
      assert forall k :: 0 < k <= |a| && k <= |b| && a[1..][..k - 1] == b[1..][..k - 1] ==>
        a[..k] == [a[0]] + a[1..][..k - 1] == b[..k];
      1 + Agreement(a[1..], b[1..])
  }

  predicate Accepts(own: Log, leader: Log, next: nat)
    requires 1 <= next <= |leader| + 1
  {
    next == 1 || (next - 1 <= |own| && own[next - 2].term == leader[next - 2].term)
  }

  /** The hints a refusal carries. */
  function Hints(own: Log, leader: Log, next: nat): AppendResp
    requires 1 <= next <= |leader| + 1 && !Accepts(own, leader, next)
  {
    if next - 1 > |own| then AppendResp(0, false, |own| + 1, 0)
    else AppendResp(0, false, RunStart(own, next - 1), own[next - 2].term)
  }

  /** A follower refuses an append at its consistency check exactly when Accepts fails, and the
      refusal then steers the leader as Hints does. */
  lemma RefusalSteers(m: Node, req: AppendReq, leader: Log, refused: AppendResp)
    requires refused == AppendResp(refused.term, false, 0, 0)
    requires req.prevIndex <= |leader| && (req.prevIndex > 0 ==> req.prevTerm == leader[req.prevIndex - 1].term)
    ensures var next := req.prevIndex + 1;
            if Accepts(m.log, leader, next) then CheckAndStore(m, req, refused) == Store(m, req, refused)
            else
              && CheckAndStore(m, req, refused).0 == m
              && !CheckAndStore(m, req, refused).1.success
              && BackedOff(leader, next, CheckAndStore(m, req, refused).1) == BackedOff(leader, next, Hints(m.log, leader, next))
  {
  }

  /** Where the exchange ends up: nextIndex when the first probe is accepted. */
  function Settled(leader: Log, own: Log, next: nat): nat
    requires 1 <= next <= |leader| + 1
    decreases next
  {
    if Accepts(own, leader, next) then next
    else Settled(leader, own, BackedOff(leader, next, Hints(own, leader, next)))
  }

  lemma EqualPrefixAgrees(a: Log, b: Log, i: nat)
    requires i < |a| && i < |b| && a[..i + 1] == b[..i + 1]
    ensures i < Agreement(a, b)
  {
    assert forall j :: 0 <= j <= i ==> a[j] == a[..i + 1][j] == b[..i + 1][j] == b[j];
  }

  lemma AcceptsIffAgree(leader: Log, own: Log, next: nat)
    requires Comparable(leader, own) && 1 <= next <= |leader| + 1
    ensures Accepts(own, leader, next) <==> next - 1 <= Agreement(leader, own)
  {
    var k := Agreement(leader, own);
    if 1 < next {
      if Accepts(own, leader, next) {
        EqualPrefixAgrees(leader, own, next - 2);
      }
      if next - 1 <= k {
        assert leader[..k][next - 2] == own[..k][next - 2];
      }
    }
  }

  /** The scan for a conflict index stops at the first entry of the run of equal terms. */
  lemma {:induction false} RunIsOneTerm(l: Log, i: nat, j: nat)
    requires 1 <= i <= |l| && RunStart(l, i) <= j <= i
    ensures l[j - 1].term == l[i - 1].term
    ensures RunStart(l, i) == 1 || l[RunStart(l, i) - 2].term != l[i - 1].term
    decreases i
  {
    if RunStart(l, i) < i {
      RunIsOneTerm(l, i - 1, if j < i then j else i - 1);
    }
  }

  /** With rising terms the downward scan finds the highest index of a term. */
  lemma {:induction false} ScanFindsLast(l: Log, t: nat, i: nat, j: nat)
    requires TermsRise(l) && 1 <= j <= i <= |l| && l[j - 1].term == t
    ensures j <= LastIndexOfTerm(l, t, i) <= i && l[LastIndexOfTerm(l, t, i) - 1].term == t
    decreases i
  {
    if l[i - 1].term != t {
      ScanFindsLast(l, t, i - 1, j);
    }
  }

  /** The hint in a conflict reply is a term; 0 doubles as "no hint". */
  predicate Hinted(own: Log, next: nat)
    requires 1 <= next
  {
    1 < next <= |own| + 1 ==> own[next - 2].term > 0
  }

  /** Every refusal strictly lowers nextIndex and never below the first index past the agreement,
      whichever hint branch runs, as long as the conflicting term is not 0. */
  lemma RefusalLowers(leader: Log, own: Log, next: nat)
    requires Comparable(leader, own) && 1 <= next <= |leader| + 1 && !Accepts(own, leader, next)
    requires Hinted(own, next)
    ensures Agreement(leader, own) + 1 <= BackedOff(leader, next, Hints(own, leader, next)) < next
  {
    var k, p := Agreement(leader, own), next - 1;
    AcceptsIffAgree(leader, own, next);
    if p <= |own| && k > 0 {
      var t := own[p - 1].term;
      assert leader[..k][k - 1] == own[..k][k - 1];
      var last, start := LastIndexOfTerm(leader, t, |leader|), RunStart(own, p);
      if 0 < last < k {
        assert leader[last - 1].term <= leader[k - 1].term && own[k - 1].term <= own[p - 1].term;
        ScanFindsLast(leader, t, |leader|, k);
      }
      if last == 0 && start <= k {
        RunIsOneTerm(own, p, k);
        ScanFindsLast(leader, t, |leader|, k);
      }
    }
  }

  ghost predicate HasTerm(l: Log, t: nat) {
    exists x :: 0 <= x < |l| && l[x].term == t
  }

  /** The highest index at which the log has the term. */
  ghost predicate LastOfTerm(l: Log, t: nat, i: nat) {
    1 <= i <= |l| && l[i - 1].term == t && forall x :: i <= x < |l| ==> l[x].term != t
  }

  /** Index b begins the run of equal terms that reaches index i. */
  ghost predicate FirstOfRun(l: Log, i: nat, b: nat) {
    && 1 <= b <= i <= |l| && (forall x :: b - 1 <= x < i ==> l[x].term == l[i - 1].term)
    && (b == 1 || l[b - 2].term != l[i - 1].term)
  }

  lemma RunIsFirst(l: Log, i: nat)
    requires 1 <= i <= |l|
    ensures FirstOfRun(l, i, RunStart(l, i))
  {
    forall x | RunStart(l, i) - 1 <= x < i ensures l[x].term == l[i - 1].term {
      RunIsOneTerm(l, i, x + 1);
    }
    RunIsOneTerm(l, i, i);
  }

  lemma ScanIsLast(l: Log, t: nat)
    requires TermsRise(l)
    ensures if HasTerm(l, t) then LastOfTerm(l, t, LastIndexOfTerm(l, t, |l|)) else LastIndexOfTerm(l, t, |l|) == 0
  {
    var last := LastIndexOfTerm(l, t, |l|);
    if last > 0 {
      assert l[last - 1].term == t;
    }
    forall x | 0 <= x < |l| && l[x].term == t ensures x + 1 <= last {
      ScanFindsLast(l, t, |l|, x + 1);
    }
  }

  /** How far a refusal takes the leader in one step. A log that is too short: right behind its end. A
      conflicting term the leader has too: behind the leader's last entry of that term, or one down if
      that is no lower. One it does not have: to the follower's first entry of it, past the whole run. */
  lemma RefusalJumps(leader: Log, own: Log, next: nat) returns (last: nat)
    requires Comparable(leader, own) && 1 <= next <= |leader| + 1 && !Accepts(own, leader, next)
    requires Hinted(own, next)
    ensures var b := BackedOff(leader, next, Hints(own, leader, next));
            if next - 1 > |own| then b == |own| + 1
            else if HasTerm(leader, own[next - 2].term) then
              LastOfTerm(leader, own[next - 2].term, last) && b == if last + 1 < next then last + 1 else next - 1
            else FirstOfRun(own, next - 1, b)
  {
    last := 0;
    if next - 1 <= |own| {
      last := LastIndexOfTerm(leader, own[next - 2].term, |leader|);
      ScanIsLast(leader, own[next - 2].term);
      RunIsFirst(own, next - 1);
    }
  }

  /** With a conflicting term 0 the refusal sends nextIndex back to 1, so it undershoots unless
      the logs share nothing. Together with RefusalLowers this settles every case. */
  lemma TermZeroResets(leader: Log, own: Log, next: nat)
    requires Comparable(leader, own) && 1 <= next <= |leader| + 1 && !Accepts(own, leader, next)
    requires !Hinted(own, next)
    ensures BackedOff(leader, next, Hints(own, leader, next)) == 1
    ensures Agreement(leader, own) + 1 <= BackedOff(leader, next, Hints(own, leader, next)) <==> Agreement(leader, own) == 0
  {
    AllOneRun(own, next - 1);
  }

  /** A log whose terms start at 0 does undershoot: the logs agree on their first entry, yet the
      exchange goes back to index 1. */
  lemma TermZeroUndershoots(leader: Log, own: Log)
    requires leader == [LogEntry(0, 1, ENTRY_NORMAL, []), LogEntry(1, 2, ENTRY_NORMAL, [])]
    requires own == [LogEntry(0, 1, ENTRY_NORMAL, []), LogEntry(0, 2, ENTRY_NORMAL, [])]
    ensures Comparable(leader, own) && Agreement(leader, own) == 1
    ensures !Accepts(own, leader, 3) && BackedOff(leader, 3, Hints(own, leader, 3)) == 1
    ensures Settled(leader, own, 3) == 1
  {
    assert leader[..1] == own[..1] == [leader[0]];
    TermZeroResets(leader, own, 3);
  }

  lemma {:induction false} AllOneRun(l: Log, i: nat)
    requires TermsRise(l) && 1 <= i <= |l| && l[i - 1].term == 0
    ensures RunStart(l, i) == 1
    decreases i
  {
    if i > 1 {
      assert l[i - 2].term <= l[i - 1].term;
      AllOneRun(l, i - 1);
    }
  }

  ghost predicate TermsPositive(l: Log) {
    forall i :: 0 <= i < |l| ==> l[i].term > 0
  }

  ghost predicate SettlesRight(leader: Log, own: Log, next: nat)
    requires 1 <= next <= |leader| + 1
  {
    Settled(leader, own, next) == Min(next, Agreement(leader, own) + 1)
  }

  /** The exchange converges exactly: from any nextIndex past the agreement it stops at the first
      index past it; from one inside, at once. */
  lemma {:induction false} BackoffConverges(leader: Log, own: Log, next: nat)
    requires Comparable(leader, own) && 1 <= next <= |leader| + 1
    requires TermsPositive(own)
    ensures SettlesRight(leader, own, next)
    decreases next
  {
    AcceptsIffAgree(leader, own, next);
    if !Accepts(own, leader, next) {
      RefusalLowers(leader, own, next);
      BackoffConverges(leader, own, BackedOff(leader, next, Hints(own, leader, next)));
    }
  }

  /** The logs of a run meet the assumptions, whichever two servers and moments are compared. */
  lemma LogsComparableInRuns(run: seq<Sys>, acts: seq<Action>, j: nat, k: nat, n: ServerId, m: ServerId)
    requires IsRun(run, acts) && j < |run| && k < |run| && n in run[j].nodes && m in run[k].nodes
    ensures Comparable(run[j].nodes[n].log, run[k].nodes[m].log)
    ensures TermsPositive(run[k].nodes[m].log)
  {
    var a, b := run[j].nodes[n].log, run[k].nodes[m].log;
    forall i, i' | 0 <= i <= i' < |a| ensures a[i].term <= a[i'].term {
      RaftTheorems.LogShapeTheorem(run, acts, j, n, i, i');
    }
    forall i, i' | 0 <= i <= i' < |b| ensures b[i].term <= b[i'].term {
      RaftTheorems.LogShapeTheorem(run, acts, k, m, i, i');
    }
    forall i | 0 <= i < |b| ensures b[i].term > 0 {
      RaftTheorems.LogShapeTheorem(run, acts, k, m, i, i);
    }
    forall i | 0 <= i < |a| && i < |b| && a[i].term == b[i].term ensures a[..i + 1] == b[..i + 1] {
      RaftTheorems.LogMatchingTheorem(run, acts, j, k, n, m, i);
    }
  }

  /** So between any two servers of a run, at any moments, the exchange stops at exactly the first
      index where their logs differ. */
  lemma CatchUpInRuns(run: seq<Sys>, acts: seq<Action>, j: nat, k: nat, n: ServerId, m: ServerId, next: nat)
    requires IsRun(run, acts) && j < |run| && k < |run| && n in run[j].nodes && m in run[k].nodes
    requires 1 <= next <= |run[j].nodes[n].log| + 1
    ensures SettlesRight(run[j].nodes[n].log, run[k].nodes[m].log, next)
  {
    LogsComparableInRuns(run, acts, j, k, n, m);
    BackoffConverges(run[j].nodes[n].log, run[k].nodes[m].log, next);
  }

  // ---------------------------------------------------------------------------
  // Redelivery

  /** What the leader sends continues from prevIndex. */
  predicate InSequence(req: AppendReq) {
    Consecutive(req.entries, req.prevIndex + 1)
  }

  lemma RestKeepsCommitted(m: Node, req: AppendReq, rest: Log, refused: AppendResp)
    requires rest != []
    ensures m.log[..Min(m.commitIndex, |m.log|)] <= StoreRest(m, req, rest, refused).0.log
  {
  }

  lemma CheckKeepsCommitted(m: Node, req: AppendReq, refused: AppendResp)
    ensures m.log[..Min(m.commitIndex, |m.log|)] <= CheckAndStore(m, req, refused).0.log
  {
    var i := FirstNew(m.log, req.entries);
    if i < |req.entries| {
      RestKeepsCommitted(m, req, req.entries[i..], refused);
    }
  }

  /** No append request, however malformed, touches an entry at or below the commit index. */
  lemma AppendKeepsCommitted(cfg: Config, n: Node, req: AppendReq, ticks: int)
    ensures n.log[..Min(n.commitIndex, |n.log|)] <= HandleAppend(cfg, n, req, ticks).0.log
  {
    CheckKeepsCommitted(Heed(cfg, n, req, ticks), req, AppendResp(n.term, false, 0, 0));
  }

  predicate PassesCheck(l: Log, req: AppendReq) {
    req.prevIndex <= |l| && (req.prevIndex > 0 ==> l[req.prevIndex - 1].term == req.prevTerm)
  }

  ghost predicate HoldsAll(l: Log, req: AppendReq) {
    PassesCheck(l, req) && forall j :: 0 <= j < |req.entries| ==> Present(l, req.entries[j])
  }

  lemma RestFits(m: Node, req: AppendReq, rest: Log, refused: AppendResp, last: nat)
    requires rest != [] && last <= |m.log| && Consecutive(rest, last + 1)
    ensures var m' := StoreRest(m, req, rest, refused).0;
            m' == m || (m'.log == m.log[..last] + rest && m' == Stored(m', req).0)
  {
    assert rest[0].index == last + 1;
    assert m.log[..|m.log|] == m.log;
  }

  /** From m to m' the entries from position i on landed right behind what was already there. */
  ghost predicate Fitted(m: Node, m': Node, req: AppendReq, i: nat)
    requires i <= |req.entries| && req.prevIndex + i <= |m.log|
  {
    m' == m || (m'.log == m.log[..req.prevIndex + i] + req.entries[i..] && m' == Stored(m', req).0)
  }

  lemma AheadIsHeld(l: Log, req: AppendReq)
    requires InSequence(req) && PassesCheck(l, req)
    ensures var i := FirstNew(l, req.entries);
            req.prevIndex + i <= |l| && forall j :: 0 <= j < i ==> Present(l, req.entries[j])
  {
    var i := FirstNew(l, req.entries);
    assert i > 0 ==> Present(l, req.entries[i - 1]);
  }

  lemma SuffixFits(m: Node, req: AppendReq, refused: AppendResp)
    requires InSequence(req) && PassesCheck(m.log, req) && FirstNew(m.log, req.entries) < |req.entries|
    requires req.prevIndex + FirstNew(m.log, req.entries) <= |m.log|
    ensures Fitted(m, Store(m, req, refused).0, req, FirstNew(m.log, req.entries))
  {
    var i := FirstNew(m.log, req.entries);
    RestFits(m, req, req.entries[i..], refused, req.prevIndex + i);
  }

  lemma JoinedHolds(l: Log, req: AppendReq, i: nat)
    requires InSequence(req) && PassesCheck(l, req) && i <= |req.entries| && req.prevIndex + i <= |l|
    requires forall j :: 0 <= j < i ==> Present(l, req.entries[j])
    ensures HoldsAll(l[..req.prevIndex + i] + req.entries[i..], req)
  {
    var l' := l[..req.prevIndex + i] + req.entries[i..];
    assert req.prevIndex > 0 ==> l'[req.prevIndex - 1] == l[req.prevIndex - 1];
    forall j | 0 <= j < |req.entries| ensures Present(l', req.entries[j]) {
      if j < i {
        assert l'[req.prevIndex + j] == l[req.prevIndex + j];
      } else {
        assert l'[req.prevIndex + j] == req.entries[i..][j - i];
      }
    }
  }

  /** From m to m' nothing happened, or the log came to hold the whole request. */
  ghost predicate Settling(m: Node, m': Node, req: AppendReq) {
    m' == m || (HoldsAll(m'.log, req) && m' == Stored(m', req).0)
  }

  lemma FittedSettles(m: Node, m': Node, req: AppendReq, i: nat)
    requires InSequence(req) && PassesCheck(m.log, req) && i <= |req.entries| && req.prevIndex + i <= |m.log|
    requires forall j :: 0 <= j < i ==> Present(m.log, req.entries[j])
    requires Fitted(m, m', req, i)
    ensures Settling(m, m', req)
  {
    if m' != m {
      JoinedHolds(m.log, req, i);
    }
  }

  lemma NothingNewSettles(m: Node, req: AppendReq, refused: AppendResp)
    requires PassesCheck(m.log, req) && FirstNew(m.log, req.entries) == |req.entries|
    ensures Settling(m, Store(m, req, refused).0, req)
  {
  }

  /** After storing, the log holds the whole request. */
  lemma StoreHoldsAll(m: Node, req: AppendReq, refused: AppendResp)
    requires InSequence(req) && PassesCheck(m.log, req)
    ensures Settling(m, Store(m, req, refused).0, req)
  {
    var i := FirstNew(m.log, req.entries);
    AheadIsHeld(m.log, req);
    if i < |req.entries| {
      SuffixFits(m, req, refused);
      FittedSettles(m, Store(m, req, refused).0, req, i);
    } else {
      NothingNewSettles(m, req, refused);
    }
  }

  lemma HoldingIsIdle(m: Node, req: AppendReq, refused: AppendResp)
    requires HoldsAll(m.log, req) && m == Stored(m, req).0
    ensures CheckAndStore(m, req, refused).0 == m
  {
  }

  lemma RefusalIgnored(m: Node, req: AppendReq, a: AppendResp, b: AppendResp)
    ensures CheckAndStore(m, req, a).0 == CheckAndStore(m, req, b).0
  {
  }

  lemma CheckIsIdle(m: Node, req: AppendReq, refused: AppendResp)
    requires InSequence(req)
    ensures var once := CheckAndStore(m, req, refused).0;
            CheckAndStore(once, req, refused).0 == once
  {
    var once := CheckAndStore(m, req, refused).0;
    if PassesCheck(m.log, req) && once != m {
      StoreHoldsAll(m, req, refused);
      HoldingIsIdle(once, req, refused);
    }
  }

  lemma OnlyLogAndCommit(m: Node, req: AppendReq, refused: AppendResp)
    ensures var m' := CheckAndStore(m, req, refused).0;
            m' == m.(log := m'.log, commitIndex := m'.commitIndex)
  {
  }

  lemma HeedIsIdle(cfg: Config, n: Node, req: AppendReq, ticks: int, refused: AppendResp)
    requires req.term >= n.term
    ensures var once := CheckAndStore(Heed(cfg, n, req, ticks), req, refused).0;
            once.term == req.term && Heed(cfg, once, req, ticks) == once
  {
    OnlyLogAndCommit(Heed(cfg, n, req, ticks), req, refused);
  }

  /** Delivering a request again changes nothing: not the log, not the commit index, nothing. */
  lemma RedeliveryIsIdle(cfg: Config, n: Node, req: AppendReq, ticks: int)
    requires InSequence(req)
    ensures var once := HandleAppend(cfg, n, req, ticks).0;
            HandleAppend(cfg, once, req, ticks).0 == once
  {
    if req.term >= n.term {
      var refused := AppendResp(n.term, false, 0, 0);
      var m := Heed(cfg, n, req, ticks);
      var once := CheckAndStore(m, req, refused).0;
      HeedIsIdle(cfg, n, req, ticks, refused);
      CheckIsIdle(m, req, refused);
      RefusalIgnored(once, req, refused, AppendResp(once.term, false, 0, 0));
    }
  }
}
