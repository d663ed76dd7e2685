/** When a joint commit is sure to meet an election. The joint commit rule counts every contained
    server, learners included, while elections count voters only (pkg/raft/raft.go:953-968,
    1548-1577), so with learners the two need not meet. */
module JointQuorums {
  import opened LogTypes
  import opened Membership

  function Electorate(m: Mode): set<ServerId> {
    match m
    case Stable(c) => Voters(c)
    case Joint(o, n) => Voters(o) + Voters(n)
  }

  /** Every entry committed under the joint pair is held by a voter of every election. */
  ghost predicate CommitMeets(o: Configuration, n: Configuration, m: Mode) {
    forall r: set<ServerId>, v: set<ServerId> ::
      Accepted(Replicating, Joint(o, n), r) && Accepted(Voting, m, v) ==> r * v * Electorate(m) != {}
  }

  /** A commit and an election both rules accept, with no server in common. */
  ghost predicate Apart(o: Configuration, n: Configuration, m: Mode, r: set<ServerId>, v: set<ServerId>) {
    Accepted(Replicating, Joint(o, n), r) && Accepted(Voting, m, v) && r * v == {}
  }

  lemma ApartRefutes(o: Configuration, n: Configuration, m: Mode, r: set<ServerId>, v: set<ServerId>)
    requires Apart(o, n, m, r, v)
    ensures !CommitMeets(o, n, m)
  {
    assert r * v * Electorate(m) == {};
  }

  // ---------------------------------------------------------------------------
  // Counting

  function AtLeastZero(x: int): nat {
    if x < 0 then 0 else x
  }

  function Larger(x: int, y: int): int {
    if x < y then y else x
  }

  /** Disjoint sets share a third without crowding. */
  lemma Beside<T>(u: set<T>, r: set<T>, w: set<T>)
    requires r * w == {}
    ensures |r * u| + |w * u| <= |u|
  {
    var a, b := r * u, w * u;
    assert a * b == {} by {
      assert a * b <= r * w;
    }
    assert |a + b| == |a| + |b|;
    SubsetSize(a + b, u);
  }

  lemma SplitSize<T>(w: set<T>, u: set<T>)
    ensures |w| == |w * u| + |w - u|
  {
    assert w == (w * u) + (w - u);
  }

  lemma Rest<T>(u: set<T>, w: set<T>)
    ensures |u - w| == |u| - |w * u|
  {
    assert u == (u - w) + (w * u);
  }

  lemma {:induction false} Pick<T>(s: set<T>, k: nat) returns (r: set<T>)
    requires k <= |s|
    ensures r <= s && |r| == k
    decreases k
  {
    if k == 0 {
      r := {};
    } else {
      var x :| x in s;
      var rest := Pick(s - {x}, k - 1);
      r := rest + {x};
    }
  }

  lemma SumOfThree<T>(x: set<T>, y: set<T>, z: set<T>)
    requires x * y == {} && x * z == {} && y * z == {}
    ensures |x + y + z| == |x| + |y| + |z|
  {
    assert (x + y) * z == {};
    assert |x + y + z| == |x + y| + |z| && |x + y| == |x| + |y|;
  }

  /** A configuration as the rules see it. */
  datatype Side = Side(voters: set<ServerId>, members: set<ServerId>) {
    function Quorum(): nat {
      |voters| / 2 + 1
    }
  }

  ghost function SideOf(c: Configuration): (s: Side)
    ensures s.voters <= s.members && s.Quorum() == QuorumSize(c)
  {
    Side(Voters(c), Members(c))
  }

  // ---------------------------------------------------------------------------
  // An election under one of the two configurations

  /** With s electing: enough members of s for a commit beside an election quorum, and the other
      side can spare what that election must take from it. */
  predicate StableEscape(s: Side, other: Side) {
    && s.voters != {}
    && |s.members| >= 2 * s.Quorum()
    && |other.members| - AtLeastZero(s.Quorum() - |s.voters - other.members|) >= other.Quorum()
  }

  lemma StableApartEscapes(s: Side, other: Side, r: set<ServerId>, v: set<ServerId>)
    requires s.voters <= s.members && |v * s.voters| >= s.Quorum() && r * v * s.voters == {}
    requires |r * s.members| >= s.Quorum() && |r * other.members| >= other.Quorum()
    ensures StableEscape(s, other)
  {
    var w := v * s.voters;
    assert r * w == {};
    Beside(s.members, r, w);
    Beside(other.members, r, w);
    assert w * s.members == w;
    SplitSize(w, other.members);
    SubsetSize(w - other.members, s.voters - other.members);
    assert w <= s.voters;
  }

  /** An election of just a quorum that spares the other side as far as it can, and a commit of all
      the rest. */
  lemma StableEscapeApart(s: Side, other: Side) returns (r: set<ServerId>, v: set<ServerId>)
    requires s.voters <= s.members && StableEscape(s, other)
    ensures |v * s.voters| >= s.Quorum() && r * v == {}
    ensures |r * s.members| >= s.Quorum() && |r * other.members| >= other.Quorum()
  {
    var q, outside, inside := s.Quorum(), s.voters - other.members, s.voters * other.members;
    SplitSize(s.voters, other.members);
    var k := if q <= |outside| then q else |outside|;
    var x := Pick(outside, k);
    var y := Pick(inside, q - k);
    v := x + y;
    r := (s.members + other.members) - v;
    assert |x + y| == |x| + |y|;
    assert v * s.voters == v && v * s.members == v && v * other.members == y;
    Leftover(s.members, other.members, v);
  }

  lemma Leftover<T>(m: set<T>, m': set<T>, v: set<T>)
    ensures |((m + m') - v) * m| == |m| - |v * m| && |((m + m') - v) * m'| == |m'| - |v * m'|
  {
    assert ((m + m') - v) * m == m - v && ((m + m') - v) * m' == m' - v;
    Rest(m, v);
    Rest(m', v);
  }

  /** Joint commits meet every election of the old configuration alone exactly when the old
      configuration has no escape. */
  lemma OldElectionsIff(o: Configuration, n: Configuration)
    ensures CommitMeets(o, n, Stable(o)) <==> !StableEscape(SideOf(o), SideOf(n))
  {
    if StableEscape(SideOf(o), SideOf(n)) {
      var r, v := StableEscapeApart(SideOf(o), SideOf(n));
      ApartRefutes(o, n, Stable(o), r, v);
    } else {
      forall r: set<ServerId>, v: set<ServerId> | Accepted(Replicating, Joint(o, n), r) && Accepted(Voting, Stable(o), v)
        ensures r * v * Electorate(Stable(o)) != {}
      {
        if r * v * Electorate(Stable(o)) == {} {
          StableApartEscapes(SideOf(o), SideOf(n), r, v);
        }
      }
    }
  }

  /** And every election of the new configuration alone exactly when the new one has none. */
  lemma NewElectionsIff(o: Configuration, n: Configuration)
    ensures CommitMeets(o, n, Stable(n)) <==> !StableEscape(SideOf(n), SideOf(o))
  {
    if StableEscape(SideOf(n), SideOf(o)) {
      var r, v := StableEscapeApart(SideOf(n), SideOf(o));
      ApartRefutes(o, n, Stable(n), r, v);
    } else {
      forall r: set<ServerId>, v: set<ServerId> | Accepted(Replicating, Joint(o, n), r) && Accepted(Voting, Stable(n), v)
        ensures r * v * Electorate(Stable(n)) != {}
      {
        if r * v * Electorate(Stable(n)) == {} {
          StableApartEscapes(SideOf(n), SideOf(o), r, v);
        }
      }
    }
  }

  // ---------------------------------------------------------------------------
  // An election under the joint pair

  /** Voters of both sides. */
  function Both(s: Side, other: Side): set<ServerId> {
    s.voters * other.voters
  }

  /** Voters of s that are mere learners of the other. */
  function Half(s: Side, other: Side): set<ServerId> {
    s.voters * (other.members - other.voters)
  }

  /** Voters of s the other does not know. */
  function Only(s: Side, other: Side): set<ServerId> {
    s.voters - other.members
  }

  /** How many learners of the other an election with `a` common voters must take from s. */
  function Borrowed(s: Side, other: Side, a: nat): nat {
    AtLeastZero(s.Quorum() - a - |Only(s, other)|)
  }

  /** How many voters the other does not know then fill the gap. */
  function Fresh(s: Side, other: Side, a: nat): (k: nat)
    ensures k <= |Only(s, other)| && a + Borrowed(s, other, a) + k == Larger(a, s.Quorum())
  {
    AtLeastZero(s.Quorum() - a) - Borrowed(s, other, a)
  }

  /** What the election takes from s leaves a commit quorum of s. */
  predicate LeavesRoom(s: Side, other: Side, a: nat) {
    && Borrowed(s, other, a) <= |Half(s, other)|
    && Larger(a, s.Quorum()) + Borrowed(other, s, a) <= |s.members| - s.Quorum()
  }

  /** Some number of common voters makes an election that leaves room on both sides. */
  predicate JointEscape(s: Side, other: Side) {
    exists a: nat :: a <= |Both(s, other)| && LeavesRoom(s, other, a) && LeavesRoom(other, s, a)
  }

  lemma VotesByRegion(s: Side, other: Side, v: set<ServerId>)
    requires other.voters <= other.members
    ensures |v * s.voters| == |v * Both(s, other)| + |v * Half(s, other)| + |v * Only(s, other)|
  {
    var x, y, z := v * Both(s, other), v * Half(s, other), v * Only(s, other);
    assert v * s.voters == x + y + z;
    SumOfThree(x, y, z);
  }

  lemma TakenByElection(s: Side, other: Side, v: set<ServerId>)
    requires s.voters <= s.members
    ensures var taken := (v * s.voters) + (v * Half(other, s));
            taken * s.members == taken && |taken| == |v * s.voters| + |v * Half(other, s)|
  {
    assert (v * s.voters) * (v * Half(other, s)) == {};
  }

  lemma OneSide(s: Side, other: Side, r: set<ServerId>, v: set<ServerId>, a: nat)
    requires s.voters <= s.members && other.voters <= other.members
    requires |v * s.voters| >= s.Quorum() && |r * s.members| >= s.Quorum()
    requires r * v * (s.voters + other.voters) == {} && a == |v * Both(s, other)|
    ensures Borrowed(s, other, a) <= |v * Half(s, other)| <= |Half(s, other)|
    ensures Larger(a, s.Quorum()) + |v * Half(other, s)| <= |s.members| - s.Quorum()
  {
    VotesByRegion(s, other, v);
    SubsetSize(v * Only(s, other), Only(s, other));
    SubsetSize(v * Half(s, other), Half(s, other));
    var taken := (v * s.voters) + (v * Half(other, s));
    TakenByElection(s, other, v);
    assert r * taken <= r * v * (s.voters + other.voters);
    Beside(s.members, r, taken);
  }

  lemma JointApartEscapes(s: Side, other: Side, r: set<ServerId>, v: set<ServerId>)
    requires s.voters <= s.members && other.voters <= other.members
    requires |v * s.voters| >= s.Quorum() && |r * s.members| >= s.Quorum()
    requires |v * other.voters| >= other.Quorum() && |r * other.members| >= other.Quorum()
    requires r * v * (s.voters + other.voters) == {}
    ensures JointEscape(s, other)
  {
    var a := |v * Both(s, other)|;
    assert Both(s, other) == Both(other, s) && s.voters + other.voters == other.voters + s.voters;
    SubsetSize(v * Both(s, other), Both(s, other));
    OneSide(s, other, r, v, a);
    OneSide(other, s, r, v, a);
    assert LeavesRoom(s, other, a) && LeavesRoom(other, s, a);
  }

  /** What a vote assembled region by region takes from one side. */
  lemma Taken(s: Side, other: Side, x: set<ServerId>, half: set<ServerId>, only: set<ServerId>,
              half': set<ServerId>, only': set<ServerId>)
    requires s.voters <= s.members && other.voters <= other.members
    requires x <= Both(s, other) && half <= Half(s, other) && only <= Only(s, other)
    requires half' <= Half(other, s) && only' <= Only(other, s)
    ensures var v := x + half + only + (half' + only');
            |v * s.voters| == |x| + |half| + |only| && |v * s.members| == |x| + |half| + |only| + |half'|
  {
    var v := x + half + only + (half' + only');
    var own := x + half + only;
    assert v * s.voters == own;
    assert v * s.members == own + half' && own * half' == {};
    SumOfThree(x, half, only);
    assert |own + half'| == |own| + |half'|;
  }

  lemma Reorder<T>(x: set<T>, b: set<T>, c: set<T>, d: set<T>, e: set<T>)
    ensures x + b + c + (d + e) == x + d + e + (b + c)
  {
  }

  /** One side's share of an election assembled to measure. */
  lemma Measured(s: Side, other: Side, a: nat, x: set<ServerId>, half: set<ServerId>, only: set<ServerId>,
                 half': set<ServerId>, only': set<ServerId>)
    requires s.voters <= s.members && other.voters <= other.members && LeavesRoom(s, other, a)
    requires x <= s.voters * other.voters && half <= Half(s, other) && only <= Only(s, other)
    requires half' <= Half(other, s) && only' <= Only(other, s)
    requires |x| == a && |half| == Borrowed(s, other, a) && |only| == Fresh(s, other, a) && |half'| == Borrowed(other, s, a)
    ensures var v := x + half + only + (half' + only');
            |v * s.voters| >= s.Quorum() && |v * s.members| <= |s.members| - s.Quorum()
  {
    Taken(s, other, x, half, only, half', only');
  }

  lemma JointElection(s: Side, other: Side, a: nat) returns (v: set<ServerId>)
    requires s.voters <= s.members && other.voters <= other.members
    requires a <= |Both(s, other)| && LeavesRoom(s, other, a) && LeavesRoom(other, s, a)
    ensures |v * s.voters| >= s.Quorum() && |v * s.members| <= |s.members| - s.Quorum()
    ensures |v * other.voters| >= other.Quorum() && |v * other.members| <= |other.members| - other.Quorum()
  {
    var x := Pick(Both(s, other), a);
    var b := Pick(Half(s, other), Borrowed(s, other, a));
    var c := Pick(Only(s, other), Fresh(s, other, a));
    var d := Pick(Half(other, s), Borrowed(other, s, a));
    var e := Pick(Only(other, s), Fresh(other, s, a));
    v := x + b + c + (d + e);
    Measured(s, other, a, x, b, c, d, e);
    Reorder(x, b, c, d, e);
    Measured(other, s, a, x, d, e, b, c);
  }

  /** The election that an escape describes, with everybody else committing. */
  lemma JointEscapeApart(s: Side, other: Side) returns (r: set<ServerId>, v: set<ServerId>)
    requires s.voters <= s.members && other.voters <= other.members && JointEscape(s, other)
    ensures |v * s.voters| >= s.Quorum() && |v * other.voters| >= other.Quorum() && r * v == {}
    ensures |r * s.members| >= s.Quorum() && |r * other.members| >= other.Quorum()
  {
    var a: nat :| a <= |Both(s, other)| && LeavesRoom(s, other, a) && LeavesRoom(other, s, a);
    v := JointElection(s, other, a);
    r := (s.members + other.members) - v;
    Leftover(s.members, other.members, v);
  }

  /** Joint commits meet every joint election exactly when the pair has no escape. */
  lemma JointElectionsIff(o: Configuration, n: Configuration)
    ensures CommitMeets(o, n, Joint(o, n)) <==> !JointEscape(SideOf(o), SideOf(n))
  {
    if JointEscape(SideOf(o), SideOf(n)) {
      var r, v := JointEscapeApart(SideOf(o), SideOf(n));
      ApartRefutes(o, n, Joint(o, n), r, v);
    } else {
      forall r: set<ServerId>, v: set<ServerId> | Accepted(Replicating, Joint(o, n), r) && Accepted(Voting, Joint(o, n), v)
        ensures r * v * Electorate(Joint(o, n)) != {}
      {
        if r * v * Electorate(Joint(o, n)) == {} {
          JointApartEscapes(SideOf(o), SideOf(n), r, v);
        }
      }
    }
  }

  // ---------------------------------------------------------------------------
  // What follows

  /** Too few members for a commit beside an election quorum. */
  predicate Tight(s: Side) {
    |s.members| < 2 * s.Quorum()
  }

  /** A tight configuration protects the elections it takes part in, whatever the other one is. */
  lemma TightMeets(o: Configuration, n: Configuration)
    ensures Tight(SideOf(o)) ==> CommitMeets(o, n, Stable(o)) && CommitMeets(o, n, Joint(o, n))
    ensures Tight(SideOf(n)) ==> CommitMeets(o, n, Stable(n)) && CommitMeets(o, n, Joint(o, n))
  {
    OldElectionsIff(o, n);
    NewElectionsIff(o, n);
    JointElectionsIff(o, n);
  }

  /** Tight means no learner, or a single one beside an even number of voters. */
  lemma TightIff(s: Side)
    requires s.voters <= s.members
    ensures Tight(s) <==> |s.members - s.voters| <= (|s.voters| + 1) % 2
  {
    Rest(s.members, s.voters);
    assert s.voters * s.members == s.voters;
  }

  /** The failing case: voters a, b, c and learner l on both sides. */
  function ThreeAndLearner(): Configuration {
    [Server("a", false), Server("b", false), Server("c", false), Server("l", true)]
  }

  lemma ThreeAndLearnerSets()
    ensures var c := ThreeAndLearner();
            DistinctIds(c) && Members(c) == {"a", "b", "c", "l"} && Voters(c) == {"a", "b", "c"} && QuorumSize(c) == 2
  {
    var c := ThreeAndLearner();
    assert c[0] in c && c[1] in c && c[2] in c && c[3] in c;
  }

  lemma TwoOfThree(members: set<ServerId>, voters: set<ServerId>)
    requires members == {"a", "b", "c", "l"} && voters == {"a", "b", "c"}
    ensures |{"c", "l"} * members| == 2 && |{"a", "b"} * voters| == 2 && {"c", "l"} * {"a", "b"} == {}
  {
    assert {"c", "l"} * members == {"c", "l"} && {"a", "b"} * voters == {"a", "b"};
  }

  /** Servers c and l commit an entry that the election of a and b has never heard of. */
  lemma LearnerCommitMissesElection()
    ensures var c := ThreeAndLearner();
            && Apart(c, c, Stable(c), {"c", "l"}, {"a", "b"}) && Apart(c, c, Joint(c, c), {"c", "l"}, {"a", "b"})
            && !CommitMeets(c, c, Stable(c)) && !CommitMeets(c, c, Joint(c, c))
  {
    var c := ThreeAndLearner();
    ThreeAndLearnerSets();
    TwoOfThree(Members(c), Voters(c));
    ApartRefutes(c, c, Stable(c), {"c", "l"}, {"a", "b"});
    ApartRefutes(c, c, Joint(c, c), {"c", "l"}, {"a", "b"});
  }
}
