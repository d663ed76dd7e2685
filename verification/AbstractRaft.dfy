/** The consensus argument on a machine without messages.

    A node has a term and a log. The rest is history, never forgotten:
      ballots    who voted for whom in each term, with the voter's log at that moment
      chronicle  for each term that had a leader, the longest log that leader held in it
      leader     the leader of each such term
      acked      how much of a term's chronicle a node stored while it was in that term
    The network protocol of RaftProtocol refines this machine step by step. */
module AbstractRaft {
  import opened LogTypes
  import opened Membership

  datatype Ballot = Ballot(candidate: ServerId, log: Log)

  datatype Abs = Abs(
    voters: set<ServerId>,
    term: map<ServerId, nat>,
    log: map<ServerId, Log>,
    ballots: map<(nat, ServerId), Ballot>,
    chronicle: map<nat, Log>,
    leader: map<nat, ServerId>,
    acked: map<(nat, ServerId), nat>)

  ghost predicate IsQuorum(s: Abs, q: set<ServerId>) {
    q <= s.voters && |q| >= |s.voters| / 2 + 1
  }

  /** The election restriction: a is at least as up to date as b. */
  predicate UpToDate(a: Log, b: Log) {
    LastTerm(a) > LastTerm(b) || (LastTerm(a) == LastTerm(b) && |a| >= |b|)
  }

  function Acked(s: Abs, t: nat, n: ServerId): nat {
    if (t, n) in s.acked then s.acked[(t, n)] else 0
  }

  ghost function Supporters(s: Abs, t: nat, c: ServerId): set<ServerId> {
    set v | v in s.voters && (t, v) in s.ballots && s.ballots[(t, v)].candidate == c
  }

  /** Servers that stored the first i entries of term t, and those that still might. */
  ghost function Holders(s: Abs, t: nat, i: nat): set<ServerId> {
    set n | n in s.voters && Acked(s, t, n) >= i
  }

  ghost function Able(s: Abs, t: nat, i: nat): set<ServerId>
    requires s.term.Keys == s.voters
  {
    set n | n in s.voters && (Acked(s, t, n) >= i || s.term[n] <= t)
  }

  /** Index i of term t's chronicle is an entry of term t itself. */
  ghost predicate OwnEntry(s: Abs, t: nat, i: nat) {
    t in s.chronicle && 1 <= i <= |s.chronicle[t]| && s.chronicle[t][i - 1].term == t
  }

  /** Committed by the own-term quorum rule. */
  ghost predicate Chosen(s: Abs, t: nat, i: nat) {
    OwnEntry(s, t, i) && IsQuorum(s, Holders(s, t, i))
  }

  /** Committed, or not yet ruled out. */
  ghost predicate Choosable(s: Abs, t: nat, i: nat)
    requires s.term.Keys == s.voters
  {
    OwnEntry(s, t, i) && IsQuorum(s, Able(s, t, i))
  }

  // ---------------------------------------------------------------------------
  // Invariants

  /** Every entry of the log is where its term's leader had it, and so is everything below it. */
  ghost predicate Faithful(s: Abs, l: Log) {
    forall i :: 0 <= i < |l| ==> l[i].term in s.chronicle && l[..i + 1] <= s.chronicle[l[i].term]
  }

  ghost predicate TermsAtMost(l: Log, t: nat) {
    forall i :: 0 <= i < |l| ==> l[i].term <= t
  }

  ghost predicate Shape(s: Abs) {
    && s.term.Keys == s.voters
    && s.log.Keys == s.voters
    && s.leader.Keys == s.chronicle.Keys
  }

  ghost predicate BallotsSound(s: Abs)
    requires Shape(s)
  {
    forall t, v :: (t, v) in s.ballots ==>
      && v in s.voters && t <= s.term[v]
      && Faithful(s, s.ballots[(t, v)].log)
      && BacksCandidate(s, t, s.ballots[(t, v)])
  }

  ghost predicate BacksCandidate(s: Abs, t: nat, b: Ballot) {
    && b.candidate in s.voters
    && (t, b.candidate) in s.ballots
    && s.ballots[(t, b.candidate)].candidate == b.candidate
    && UpToDate(s.ballots[(t, b.candidate)].log, b.log)
    && 0 < t && TermsAtMost(s.ballots[(t, b.candidate)].log, t - 1)
  }

  ghost predicate LeadersElected(s: Abs)
    requires Shape(s)
  {
    forall t :: t in s.chronicle ==>
      && s.leader[t] in s.voters
      && IsQuorum(s, Supporters(s, t, s.leader[t]))
  }

  ghost predicate LogsFaithful(s: Abs)
    requires Shape(s)
  {
    forall n :: n in s.voters ==> Faithful(s, s.log[n]) && TermsAtMost(s.log[n], s.term[n])
  }

  ghost predicate ChroniclesFaithful(s: Abs) {
    forall t :: t in s.chronicle ==>
      && Faithful(s, s.chronicle[t])
      && TermsAtMost(s.chronicle[t], t)
      && Numbered(s.chronicle[t], 1)
      && LastTerm(s.chronicle[t]) == t
  }

  /** A node still in the term it led holds exactly that term's chronicle. */
  ghost predicate LeadersHoldChronicle(s: Abs)
    requires Shape(s)
  {
    forall t :: t in s.chronicle && s.leader[t] in s.voters && s.term[s.leader[t]] == t ==>
      s.log[s.leader[t]] == s.chronicle[t]
  }

  /** A candidate whose term has no leader yet still has the log it campaigned with. */
  ghost predicate CandidatesKeepLog(s: Abs)
    requires Shape(s)
  {
    forall n :: n in s.voters && (s.term[n], n) in s.ballots
                && s.ballots[(s.term[n], n)].candidate == n && s.term[n] !in s.chronicle ==>
      s.log[n] == s.ballots[(s.term[n], n)].log
  }

  ghost predicate AcksSound(s: Abs)
    requires Shape(s)
  {
    forall t, n :: (t, n) in s.acked ==>
      n in s.voters && t in s.chronicle && t <= s.term[n] && s.acked[(t, n)] <= |s.chronicle[t]|
  }

  /** What a node acknowledged stays in its log: during the term always, later for as long as
      the entry may still be chosen. */
  ghost predicate AcksKept(s: Abs)
    requires Shape(s)
  {
    forall n, t, i: nat ::
      n in s.voters && t in s.chronicle && i <= Acked(s, t, n) && i <= |s.chronicle[t]|
      && (t == s.term[n] || Choosable(s, t, i)) ==>
        s.chronicle[t][..i] <= s.log[n]
  }

  ghost predicate AcksInBallots(s: Abs)
    requires Shape(s)
  {
    forall t, v, t0, i: nat ::
      (t, v) in s.ballots && t0 < t && Choosable(s, t0, i) && i <= Acked(s, t0, v) ==>
        s.chronicle[t0][..i] <= s.ballots[(t, v)].log
  }

  /** Leader Completeness, strengthened to everything that may still be chosen. */
  ghost predicate Complete(s: Abs)
    requires Shape(s)
  {
    forall t0, t, i: nat :: t0 < t && t in s.chronicle && Choosable(s, t0, i) ==>
      s.chronicle[t0][..i] <= s.chronicle[t]
  }

  ghost predicate Inv(s: Abs) {
    && Shape(s)
    && BallotsSound(s)
    && LeadersElected(s)
    && LogsFaithful(s)
    && ChroniclesFaithful(s)
    && LeadersHoldChronicle(s)
    && CandidatesKeepLog(s)
    && AcksSound(s)
    && AcksKept(s)
    && AcksInBallots(s)
    && Complete(s)
  }

  // ---------------------------------------------------------------------------
  // Steps

  function Start(voters: set<ServerId>): Abs {
    Abs(voters, map n | n in voters :: 0, map n | n in voters :: [], map[], map[], map[], map[])
  }

  /** A node learns of a higher term. */
  function Bump(s: Abs, n: ServerId, t: nat): Abs {
    s.(term := s.term[n := t])
  }

  /** A node enters a fresh term and votes for itself. */
  function Campaign(s: Abs, n: ServerId): Abs
    requires n in s.term && n in s.log
  {
    var t := s.term[n] + 1;
    s.(term := s.term[n := t], ballots := s.ballots[(t, n) := Ballot(n, s.log[n])])
  }

  /** A node that has not voted in its term votes for a candidate of that term. */
  ghost predicate CanCast(s: Abs, v: ServerId, c: ServerId) {
    && v in s.voters && v in s.term && v in s.log && c in s.voters
    && (s.term[v], v) !in s.ballots
    && (s.term[v], c) in s.ballots && s.ballots[(s.term[v], c)].candidate == c
    && UpToDate(s.ballots[(s.term[v], c)].log, s.log[v])
  }

  function Cast(s: Abs, v: ServerId, c: ServerId): Abs
    requires v in s.term && v in s.log
  {
    s.(ballots := s.ballots[(s.term[v], v) := Ballot(c, s.log[v])])
  }

  /** A candidate backed by a quorum in a term without a leader takes the term over and
      appends its first entry. */
  ghost predicate CanWin(s: Abs, n: ServerId, e: LogEntry) {
    && n in s.voters && n in s.term && n in s.log
    && s.term[n] !in s.chronicle
    && IsQuorum(s, Supporters(s, s.term[n], n))
    && e.term == s.term[n] && e.index == |s.log[n]| + 1
  }

  function Win(s: Abs, n: ServerId, e: LogEntry): Abs
    requires n in s.term && n in s.log
  {
    var t, l := s.term[n], s.log[n] + [e];
    s.(log := s.log[n := l], chronicle := s.chronicle[t := l], leader := s.leader[t := n],
       acked := s.acked[(t, n) := |l|])
  }

  /** The leader of the node's own term appends entries of that term. */
  ghost predicate CanExtend(s: Abs, n: ServerId, es: Log) {
    && n in s.voters && n in s.term && n in s.log
    && s.term[n] in s.chronicle && s.term[n] in s.leader && s.leader[s.term[n]] == n
    && Numbered(es, |s.log[n]| + 1)
    && forall i :: 0 <= i < |es| ==> es[i].term == s.term[n]
  }

  function Extend(s: Abs, n: ServerId, es: Log): Abs
    requires n in s.term && n in s.log
  {
    var t, l := s.term[n], s.log[n] + es;
    s.(log := s.log[n := l], chronicle := s.chronicle[t := l], acked := s.acked[(t, n) := |l|])
  }

  /** A follower stores the first hi entries of its term's leader, keeping a longer log that
      already agrees with them. */
  ghost predicate CanAccept(s: Abs, n: ServerId, hi: nat) {
    && n in s.voters && n in s.term && n in s.log
    && s.term[n] in s.chronicle && s.term[n] in s.leader && s.leader[s.term[n]] != n
    && hi <= |s.chronicle[s.term[n]]|
  }

  function Merged(log: Log, source: Log): Log {
    if source <= log then log else source
  }

  function Accept(s: Abs, n: ServerId, hi: nat): Abs
    requires n in s.term && n in s.log && s.term[n] in s.chronicle && hi <= |s.chronicle[s.term[n]]|
  {
    var t := s.term[n];
    s.(log := s.log[n := Merged(s.log[n], s.chronicle[t][..hi])],
       acked := s.acked[(t, n) := if Acked(s, t, n) >= hi then Acked(s, t, n) else hi])
  }

  // ---------------------------------------------------------------------------
  // Facts about logs

  /** Log Matching: two faithful logs with the same term at an index agree up to it. */
  lemma LogMatching(s: Abs, a: Log, b: Log, i: nat)
    requires Faithful(s, a) && Faithful(s, b)
    requires i < |a| && i < |b| && a[i].term == b[i].term
    ensures a[..i + 1] == b[..i + 1]
  {
    var c := s.chronicle[a[i].term];
    assert a[..i + 1] <= c && b[..i + 1] <= c;
    assert a[..i + 1] == c[..i + 1] == b[..i + 1];
  }

  lemma FaithfulPrefix(s: Abs, l: Log, k: nat)
    requires Faithful(s, l) && k <= |l|
    ensures Faithful(s, l[..k])
  {
    forall i | 0 <= i < k ensures l[..k][i].term in s.chronicle && l[..k][..i + 1] <= s.chronicle[l[..k][i].term] {
      assert l[..k][..i + 1] == l[..i + 1];
    }
  }

  /** Entries of one term on top of a faithful log, as the term's chronicle has them. */
  lemma FaithfulAppend(s: Abs, l: Log, es: Log, t: nat)
    requires Faithful(s, l) && t in s.chronicle && l + es <= s.chronicle[t]
    requires forall i :: 0 <= i < |es| ==> es[i].term == t
    ensures Faithful(s, l + es)
  {
    var m := l + es;
    forall i | 0 <= i < |m| ensures m[i].term in s.chronicle && m[..i + 1] <= s.chronicle[m[i].term] {
      if i < |l| {
        assert m[..i + 1] == l[..i + 1] && m[i] == l[i];
      } else {
        assert m[i] == es[i - |l|];
        assert m[..i + 1] <= m;
      }
    }
  }

  /** Terms never decrease along a faithful log. */
  lemma FaithfulMonotone(s: Abs, l: Log, i: nat, j: nat)
    requires Faithful(s, l) && ChroniclesFaithful(s)
    requires i <= j < |l|
    ensures l[i].term <= l[j].term
  {
    var c := s.chronicle[l[j].term];
    assert l[..j + 1] <= c;
    assert l[..j + 1][i] == c[i];
  }

  lemma FaithfulNumbered(s: Abs, l: Log)
    requires Faithful(s, l) && ChroniclesFaithful(s)
    ensures Numbered(l, 1)
  {
    forall i | 0 <= i < |l| ensures l[i].index == 1 + i {
      var c := s.chronicle[l[i].term];
      assert l[..i + 1] <= c;
      assert l[..i + 1][i] == c[i];
    }
  }

  /** A prefix shared by two logs is in their merge. */
  lemma MergeKeeps(p: Log, log: Log, source: Log, hi: nat)
    requires hi <= |source|
    requires p <= log && p <= source
    ensures p <= Merged(log, source[..hi])
  {
  }

  lemma MergeFaithful(s: Abs, n: ServerId, hi: nat)
    requires Shape(s) && LogsFaithful(s) && ChroniclesFaithful(s) && CanAccept(s, n, hi)
    ensures var l := Merged(s.log[n], s.chronicle[s.term[n]][..hi]);
            Faithful(s, l) && TermsAtMost(l, s.term[n]) && s.chronicle[s.term[n]][..hi] <= l
  {
    FaithfulPrefix(s, s.chronicle[s.term[n]], hi);
  }

  // ---------------------------------------------------------------------------
  // Election Safety

  lemma QuorumsMeet(s: Abs, p: set<ServerId>, q: set<ServerId>) returns (v: ServerId)
    requires IsQuorum(s, p) && IsQuorum(s, q)
    ensures v in p && v in q && v in s.voters
  {
    assert p * s.voters == p && q * s.voters == q;
    Pigeonhole(s.voters, p, q);
    v :| v in p * q * s.voters;
  }

  /** At most one candidate of a term ever gathers a quorum. */
  lemma ElectionSafety(s: Abs, t: nat, c: ServerId, d: ServerId)
    requires IsQuorum(s, Supporters(s, t, c)) && IsQuorum(s, Supporters(s, t, d))
    ensures c == d
  {
    var v := QuorumsMeet(s, Supporters(s, t, c), Supporters(s, t, d));
  }

  /** Once term t has a leader, nobody outside its voters can decide an older term alone:
      any quorum contains a voter of t. */
  lemma VoterOf(s: Abs, t: nat, q: set<ServerId>) returns (v: ServerId)
    requires Shape(s) && BallotsSound(s) && LeadersElected(s) && t in s.chronicle && IsQuorum(s, q)
    ensures v in q && v in s.voters && (t, v) in s.ballots && s.term[v] >= t
  {
    v := QuorumsMeet(s, Supporters(s, t, s.leader[t]), q);
  }
}
