/** Cluster configurations and the quorum rules of pkg/raft/types.go, joint.go and the
    two quorum tests of raft.go: winning an election and committing an entry. */
module Membership {
  import opened LogTypes

  type ServerId = string

  datatype Server = Server(id: ServerId, learner: bool)

  type Configuration = seq<Server>

  /** The active membership: one configuration, or an old and a new one in joint consensus. */
  datatype Mode = Stable(config: Configuration) | Joint(outgoing: Configuration, incoming: Configuration)

  predicate DistinctIds(c: Configuration) {
    forall i, j :: 0 <= i < j < |c| ==> c[i].id != c[j].id
  }

  predicate LearnerFree(c: Configuration) {
    forall i :: 0 <= i < |c| ==> !c[i].learner
  }

  function Members(c: Configuration): set<ServerId> {
    set s | s in c :: s.id
  }

  function Voters(c: Configuration): set<ServerId> {
    set s | s in c && !s.learner :: s.id
  }

  // ---------------------------------------------------------------------------
  // The lookups and counters, as loops over the server list and the vote map

  /** GetServer returns the first server with the given ID. */
  method GetServer(c: Configuration, id: ServerId) returns (r: Option<Server>)
    ensures r.None? <==> id !in Members(c)
    ensures r.Some? ==> r.value in c && r.value.id == id
    ensures r.Some? && !r.value.learner <==> FirstIsVoter(c, id)
  {
    for i := 0 to |c|
      invariant forall j :: 0 <= j < i ==> c[j].id != id
    {
      if c[i].id == id {
        return Some(c[i]);
      }
    }
    return None;
  }

  /** The first entry with this ID is a voter's. */
  ghost predicate FirstIsVoter(c: Configuration, id: ServerId) {
    exists i :: 0 <= i < |c| && c[i].id == id && !c[i].learner && forall j :: 0 <= j < i ==> c[j].id != id
  }

  /** The IDs the source takes for voters; with distinct IDs they are the voters. */
  ghost function Recognized(c: Configuration): set<ServerId> {
    set s | s in c && FirstIsVoter(c, s.id) :: s.id
  }

  /** The list entries of voters, which is what the source counts. */
  function VoterSlots(c: Configuration): set<nat> {
    set i: nat | i < |c| && !c[i].learner
  }

  lemma RecognizedVoters(c: Configuration)
    requires DistinctIds(c)
    ensures Recognized(c) == Voters(c)
  {
    forall s | s in c && !s.learner ensures FirstIsVoter(c, s.id) {
      var i :| 0 <= i < |c| && c[i] == s;
    }
  }

  lemma {:induction false} SlotsAreVoters(c: Configuration)
    requires DistinctIds(c)
    ensures |VoterSlots(c)| == |Voters(c)|
    decreases |c|
  {
    if c != [] {
      var n := |c| - 1;
      SlotsAreVoters(c[..n]);
      VotersSnoc(c, n);
      SlotsSnoc(c, n);
      assert c[..n + 1] == c;
    }
  }

  lemma SlotsSnoc(c: Configuration, n: nat)
    requires n < |c|
    ensures VoterSlots(c[..n + 1]) == VoterSlots(c[..n]) + (if c[n].learner then {} else {n})
    ensures n !in VoterSlots(c[..n])
  {
  }

  lemma VotersSnoc(c: Configuration, i: nat)
    requires DistinctIds(c) && i < |c|
    ensures Voters(c[..i + 1]) == Voters(c[..i]) + (if c[i].learner then {} else {c[i].id})
    ensures c[i].id !in Voters(c[..i])
  {
    assert c[..i + 1] == c[..i] + [c[i]];
  }

  method IsVoter(c: Configuration, id: ServerId) returns (voter: bool)
    ensures voter <==> id in Recognized(c)
    ensures DistinctIds(c) ==> (voter <==> id in Voters(c))
  {
    var s := GetServer(c, id);
    voter := s.Some? && !s.value.learner;
    if DistinctIds(c) {
      RecognizedVoters(c);
    }
  }

  method VoteCount(c: Configuration) returns (count: nat)
    ensures count == |VoterSlots(c)|
    ensures DistinctIds(c) ==> count == |Voters(c)|
  {
    count := 0;
    for i := 0 to |c|
      invariant count == |VoterSlots(c[..i])|
    {
      SlotsSnoc(c, i);
      if !c[i].learner {
        count := count + 1;
      }
    }
    assert c[..|c|] == c;
    if DistinctIds(c) {
      SlotsAreVoters(c);
    }
  }

  function QuorumSize(c: Configuration): nat {
    |Voters(c)| / 2 + 1
  }

  /** AllServers lists every server of either configuration once, the old entry winning. */
  method AllServers(outgoing: Configuration, incoming: Configuration) returns (servers: Configuration)
    ensures DistinctIds(servers)
    ensures Members(servers) == Members(outgoing) + Members(incoming)
    ensures forall s :: s in servers ==> s in outgoing || s in incoming
  {
    servers := [];
    for i := 0 to |outgoing|
      invariant DistinctIds(servers)
      invariant Members(servers) == Members(outgoing[..i])
      invariant forall s :: s in servers ==> s in outgoing
    {
      MembersSnoc(outgoing, i);
      servers := AddUnseen(servers, outgoing[i]);
    }
    assert outgoing[..|outgoing|] == outgoing;
    for i := 0 to |incoming|
      invariant DistinctIds(servers)
      invariant Members(servers) == Members(outgoing) + Members(incoming[..i])
      invariant forall s :: s in servers ==> s in outgoing || s in incoming
    {
      MembersSnoc(incoming, i);
      servers := AddUnseen(servers, incoming[i]);
    }
    assert incoming[..|incoming|] == incoming;
  }

  method AddUnseen(servers: Configuration, s: Server) returns (r: Configuration)
    requires DistinctIds(servers)
    ensures DistinctIds(r)
    ensures Members(r) == Members(servers) + {s.id}
    ensures r == servers || r == servers + [s]
  {
    if s.id in Members(servers) {
      r := servers;
    } else {
      forall i | 0 <= i < |servers| ensures servers[i].id != s.id {
        assert servers[i] in servers;
      }
      r := servers + [s];
    }
  }

  lemma MembersSnoc(c: Configuration, i: nat)
    requires i < |c|
    ensures Members(c[..i + 1]) == Members(c[..i]) + {c[i].id}
  {
    assert c[..i + 1] == c[..i] + [c[i]];
  }

  // ---------------------------------------------------------------------------
  // The two acceptance rules

  predicate VotesAccepted(m: Mode, granted: set<ServerId>) {
    match m
    case Stable(c) => |granted * Voters(c)| >= QuorumSize(c)
    case Joint(o, n) => |granted * Voters(o)| >= QuorumSize(o) && |granted * Voters(n)| >= QuorumSize(n)
  }

  /** In joint mode the commit rule counts every contained server, learners included. */
  predicate ReplicationAccepted(m: Mode, holders: set<ServerId>) {
    match m
    case Stable(c) => |holders * Voters(c)| >= QuorumSize(c)
    case Joint(o, n) => |holders * Members(o)| >= QuorumSize(o) && |holders * Members(n)| >= QuorumSize(n)
  }

  predicate WellFormed(m: Mode) {
    match m
    case Stable(c) => DistinctIds(c)
    case Joint(o, n) => DistinctIds(o) && DistinctIds(n)
  }

  function Granted(votes: map<ServerId, bool>): set<ServerId> {
    set id | id in votes && votes[id]
  }

  method CountVoters(c: Configuration, votes: map<ServerId, bool>) returns (n: nat)
    ensures n == |Granted(votes) * Recognized(c)|
    ensures DistinctIds(c) ==> n == |Granted(votes) * Voters(c)|
  {
    n := 0;
    var todo := votes.Keys;
    ghost var granted, voters := Granted(votes), Recognized(c);
    while todo != {}
      invariant todo <= votes.Keys
      invariant n == |(granted - todo) * voters|
      decreases todo
    {
      var id :| id in todo;
      var voter := IsVoter(c, id);
      VisitOne(granted, todo, voters, id);
      todo := todo - {id};
      if votes[id] && voter {
        n := n + 1;
      }
    }
    assert granted - {} == granted;
    if DistinctIds(c) {
      RecognizedVoters(c);
    }
  }

  /** Striking one more ID off the to-do set adds it to the counted ones iff it is a granted voter. */
  lemma VisitOne(granted: set<ServerId>, todo: set<ServerId>, voters: set<ServerId>, id: ServerId)
    requires id in todo
    ensures |(granted - (todo - {id})) * voters|
         == |(granted - todo) * voters| + (if id in granted && id in voters then 1 else 0)
  {
    var before, after := (granted - todo) * voters, (granted - (todo - {id})) * voters;
    assert after == if id in granted && id in voters then before + {id} else before;
  }

  /** A majority of a list's voter entries. */
  ghost predicate Majority(c: Configuration, granted: set<ServerId>) {
    |granted * Recognized(c)| >= |VoterSlots(c)| / 2 + 1
  }

  method HasVoteQuorum(m: Mode, votes: map<ServerId, bool>) returns (won: bool)
    ensures won <==> match m
                     case Stable(c) => Majority(c, Granted(votes))
                     case Joint(o, n) => Majority(o, Granted(votes)) && Majority(n, Granted(votes))
    ensures WellFormed(m) ==> (won <==> VotesAccepted(m, Granted(votes)))
  {
    match m
    case Stable(c) =>
      var n := CountVoters(c, votes);
      var q := VoteCount(c);
      won := n >= q / 2 + 1;
    case Joint(o, n) =>
      var no := CountVoters(o, votes);
      var qo := VoteCount(o);
      var nn := CountVoters(n, votes);
      var qn := VoteCount(n);
      won := no >= qo / 2 + 1 && nn >= qn / 2 + 1;
  }

  // ---------------------------------------------------------------------------
  // Quorum intersection

  /** Two subsets of a finite set that together outnumber it share an element. */
  lemma Pigeonhole<T>(u: set<T>, a: set<T>, b: set<T>)
    requires |a * u| + |b * u| > |u|
    ensures a * b * u != {}
  {
    var x, y := a * u, b * u;
    if a * b * u == {} {
      assert x * y == {};
      assert |x + y| == |x| + |y|;
      SubsetSize(x + y, u);
    }
  }

  datatype Rule = Voting | Replicating

  predicate Accepted(rule: Rule, m: Mode, ids: set<ServerId>) {
    match rule
    case Voting => VotesAccepted(m, ids)
    case Replicating => ReplicationAccepted(m, ids)
  }

  lemma LearnerFreeVoters(c: Configuration)
    requires LearnerFree(c)
    ensures Members(c) == Voters(c)
  {
    forall s | s in c ensures !s.learner {
      var i :| 0 <= i < |c| && c[i] == s;
    }
  }

  /** Joint consensus: whatever a joint quorum accepts, as an election or as a commit, shares
      a voter with whatever the old configuration, the new one or the same pair accepts. */
  lemma JointQuorumsIntersect(o: Configuration, n: Configuration, r1: Rule, a: set<ServerId>,
                              r2: Rule, m2: Mode, b: set<ServerId>)
    requires LearnerFree(o) && LearnerFree(n)
    requires m2 in {Stable(o), Stable(n), Joint(o, n)}
    requires Accepted(r1, Joint(o, n), a) && Accepted(r2, m2, b)
    ensures a * b * Voters(o) != {} || a * b * Voters(n) != {}
    ensures m2 in {Stable(o), Joint(o, n)} ==> a * b * Voters(o) != {}
    ensures m2 in {Stable(n), Joint(o, n)} ==> a * b * Voters(n) != {}
  {
    LearnerFreeVoters(o);
    LearnerFreeVoters(n);
    if m2 in {Stable(o), Joint(o, n)} {
      Pigeonhole(Voters(o), a, b);
    }
    if m2 in {Stable(n), Joint(o, n)} {
      Pigeonhole(Voters(n), a, b);
    }
  }
}
