/** Routing keys to groups by range (pkg/multiraft/router.go:27-150). */
module RangeRouter {
  import opened LogTypes
  import opened Texts

  type GroupId = nat

  /** The keys from start up to but excluding end; an empty end is no bound. */
  datatype Entry = Entry(start: Text, end: Text, group: GroupId)

  predicate AtMost(a: Text, b: Text) {
    !Less(b, a)
  }

  predicate Contains(e: Entry, key: Text) {
    AtMost(e.start, key) && (e.end == [] || Less(key, e.end))
  }

  lemma AtMostTrans(a: Text, b: Text, c: Text)
    requires AtMost(a, b) && AtMost(b, c)
    ensures AtMost(a, c)
  {
    if Less(c, a) {
      LessTotal(b, c);
      if Less(b, c) {
        LessTrans(b, c, a);
      }
    }
  }

  lemma LessAtMost(a: Text, b: Text, c: Text)
    requires Less(a, b) && AtMost(b, c)
    ensures Less(a, c)
  {
    LessTotal(b, c);
    if Less(b, c) {
      LessTrans(a, b, c);
    }
  }

  lemma LessIsAtMost(a: Text, b: Text)
    requires Less(a, b)
    ensures AtMost(a, b)
  {
    LessAsymmetric(a, b);
  }

  // ---------------------------------------------------------------------------
  // Building

  predicate StartsAscend(es: seq<Entry>) {
    forall i, j :: 0 <= i < j < |es| ==> AtMost(es[i].start, es[j].start)
  }

  /** The first range ends before the second one starts. */
  predicate Precedes(a: Entry, b: Entry) {
    a.end != [] && AtMost(a.end, b.start)
  }

  predicate Separated(es: seq<Entry>) {
    forall i, j :: 0 <= i && j == i + 1 < |es| ==> Precedes(es[i], es[j])
  }

  function Inserted(es: seq<Entry>, i: nat, e: Entry): seq<Entry>
    requires i <= |es|
  {
    es[..i] + [e] + es[i..]
  }

  lemma InsertedAscends(es: seq<Entry>, i: nat, e: Entry)
    requires StartsAscend(es) && i <= |es|
    requires forall j :: 0 <= j < i ==> AtMost(es[j].start, e.start)
    requires forall j :: i <= j < |es| ==> AtMost(e.start, es[j].start)
    ensures StartsAscend(Inserted(es, i, e))
  {
    var r := Inserted(es, i, e);
    forall j, k | 0 <= j < k < |r| ensures AtMost(r[j].start, r[k].start) {
      assert j < i ==> r[j] == es[j];
      assert k > i ==> r[k] == es[k - 1];
      assert j > i ==> r[j] == es[j - 1];
    }
  }

  lemma InsertedContents(es: seq<Entry>, i: nat, e: Entry)
    requires i <= |es|
    ensures multiset(Inserted(es, i, e)) == multiset(es) + multiset{e}
  {
    assert es == es[..i] + es[i..];
  }

  method InsertEntry(es: seq<Entry>, e: Entry) returns (r: seq<Entry>)
    requires StartsAscend(es)
    ensures StartsAscend(r) && multiset(r) == multiset(es) + multiset{e}
  {
    var i := |es|;
    while i > 0 && Less(e.start, es[i - 1].start)
      invariant 0 <= i <= |es|
      invariant forall j :: i <= j < |es| ==> AtMost(e.start, es[j].start)
    {
      LessIsAtMost(e.start, es[i - 1].start);
      i := i - 1;
    }
    forall j | 0 <= j < i ensures AtMost(es[j].start, e.start) {
      if j < i - 1 {
        AtMostTrans(es[j].start, es[i - 1].start, e.start);
      }
    }
    r := Inserted(es, i, e);
    InsertedAscends(es, i, e);
    InsertedContents(es, i, e);
  }

  /** Sorting by start. Entries with equal starts may end up either way round. */
  method SortByStart(cfgs: seq<Entry>) returns (es: seq<Entry>)
    ensures StartsAscend(es) && multiset(es) == multiset(cfgs)
  {
    es := [];
    for i := 0 to |cfgs|
      invariant StartsAscend(es) && multiset(es) == multiset(cfgs[..i])
    {
      assert cfgs[..i + 1] == cfgs[..i] + [cfgs[i]];
      es := InsertEntry(es, cfgs[i]);
    }
    assert cfgs[..|cfgs|] == cfgs;
  }

  predicate NonEmpty(e: Entry) {
    e.end == [] || Less(e.start, e.end)
  }

  /** Two of the configured ranges, which may be equal if the configuration repeats itself. */
  ghost predicate Two(cfgs: seq<Entry>, a: Entry, b: Entry) {
    a in cfgs && b in cfgs && (a == b ==> multiset(cfgs)[a] >= 2)
  }

  /** However ranges with equal starts are sorted, every range ends before the next one starts. */
  ghost predicate MustAccept(cfgs: seq<Entry>) {
    forall a, b :: Two(cfgs, a, b) && AtMost(a.start, b.start) ==> Precedes(a, b)
  }

  /** The same for one way of sorting them. */
  ghost predicate MayAccept(cfgs: seq<Entry>) {
    forall a, b :: Two(cfgs, a, b) && AtMost(a.start, b.start) ==> Precedes(a, b) || (a.start == b.start && Precedes(b, a))
  }

  /** No empty range starts where a non-empty one does. */
  ghost predicate PlainTies(cfgs: seq<Entry>) {
    forall a, b :: Two(cfgs, a, b) && a.start == b.start ==> (NonEmpty(a) <==> NonEmpty(b))
  }

  lemma PlainTiesDecide(cfgs: seq<Entry>)
    requires PlainTies(cfgs)
    ensures MayAccept(cfgs) <==> MustAccept(cfgs)
  {
  }

  lemma PlacesAreTwo(es: seq<Entry>, i: nat, j: nat)
    requires i < j < |es|
    ensures Two(es, es[i], es[j])
  {
    if es[i] == es[j] {
      assert es == es[..j] + es[j..];
      assert es[..j][i] == es[i] && es[j..][0] == es[j];
      assert multiset(es[..j])[es[i]] >= 1 && multiset(es[j..])[es[j]] >= 1;
    }
  }

  lemma TwoHavePlaces(es: seq<Entry>, a: Entry, b: Entry) returns (i: nat, j: nat)
    requires Two(es, a, b)
    ensures i < |es| && j < |es| && i != j && es[i] == a && es[j] == b
  {
    i :| 0 <= i < |es| && es[i] == a;
    var rest := es[..i] + es[i + 1..];
    assert es == Inserted(rest, i, a);
    InsertedContents(rest, i, a);
    j := PlaceOf(rest, b);
    j := if j < i then j else j + 1;
  }

  lemma PlaceOf(es: seq<Entry>, e: Entry) returns (i: nat)
    requires multiset(es)[e] >= 1
    ensures i < |es| && es[i] == e
  {
    assert e in multiset(es);
    i :| 0 <= i < |es| && es[i] == e;
  }

  lemma SameTwo(cfgs: seq<Entry>, es: seq<Entry>, a: Entry, b: Entry)
    requires multiset(es) == multiset(cfgs)
    ensures Two(cfgs, a, b) <==> Two(es, a, b)
  {
    assert a in cfgs <==> a in multiset(cfgs);
    assert b in cfgs <==> b in multiset(cfgs);
    assert a in es <==> a in multiset(es);
    assert b in es <==> b in multiset(es);
  }

  /** A sorted arrangement whose neighbours are apart keeps every two ranges apart. */
  lemma SeparatedMayAccept(cfgs: seq<Entry>, es: seq<Entry>)
    requires multiset(es) == multiset(cfgs) && StartsAscend(es) && Separated(es)
    ensures MayAccept(cfgs)
  {
    forall a, b | Two(cfgs, a, b) && AtMost(a.start, b.start)
      ensures Precedes(a, b) || (a.start == b.start && Precedes(b, a))
    {
      SameTwo(cfgs, es, a, b);
      var i, j := TwoHavePlaces(es, a, b);
      if i < j {
        FarApart(es, i, j);
      } else {
        FarApart(es, j, i);
        LessTotal(a.start, b.start);
      }
    }
  }

  lemma NeighboursClash(cfgs: seq<Entry>, es: seq<Entry>, i: nat)
    requires multiset(es) == multiset(cfgs) && StartsAscend(es) && i + 1 < |es| && !Precedes(es[i], es[i + 1])
    ensures !MustAccept(cfgs)
  {
    PlacesAreTwo(es, i, i + 1);
    SameTwo(cfgs, es, es[i], es[i + 1]);
  }

  /** NewRangeRouter: the sorted entries, or nothing when neighbours overlap. */
  method Build(cfgs: seq<Entry>) returns (r: Option<seq<Entry>>)
    ensures r.Some? ==> StartsAscend(r.value) && Separated(r.value) && multiset(r.value) == multiset(cfgs)
    ensures MustAccept(cfgs) ==> r.Some?
    ensures r.Some? ==> MayAccept(cfgs)
    ensures PlainTies(cfgs) ==> (r.Some? <==> MustAccept(cfgs))
  {
    if PlainTies(cfgs) {
      PlainTiesDecide(cfgs);
    }
    var es := SortByStart(cfgs);
    var i := 1;
    while i < |es|
      invariant 1 <= i
      invariant forall j, k :: 0 <= j && k == j + 1 < |es| && k < i ==> Precedes(es[j], es[k])
    {
      var prev, curr := es[i - 1], es[i];
      if prev.end == [] {
        NeighboursClash(cfgs, es, i - 1);
        return None;
      }
      if Less(curr.start, prev.end) {
        NeighboursClash(cfgs, es, i - 1);
        return None;
      }
      i := i + 1;
    }
    SeparatedMayAccept(cfgs, es);
    return Some(es);
  }

  ghost predicate ShareKey(a: Entry, b: Entry) {
    exists key :: Contains(a, key) && Contains(b, key)
  }

  lemma ApartOrShared(a: Entry, b: Entry)
    requires AtMost(a.start, b.start) && NonEmpty(b)
    ensures Precedes(a, b) <==> !ShareKey(a, b)
  {
    if !Precedes(a, b) {
      LessIrreflexive(b.start);
      assert Contains(a, b.start) && Contains(b, b.start);
    } else if ShareKey(a, b) {
      var key :| Contains(a, key) && Contains(b, key);
      LessAtMost(key, a.end, b.start);
      assert false;
    }
  }

  /** Among non-empty ranges a configuration is accepted exactly when no two of them share a key. */
  lemma AcceptedIffDisjoint(cfgs: seq<Entry>)
    requires forall e :: e in cfgs ==> NonEmpty(e)
    ensures PlainTies(cfgs)
    ensures MustAccept(cfgs) <==> forall a, b :: Two(cfgs, a, b) ==> !ShareKey(a, b)
  {
    forall a, b | Two(cfgs, a, b)
      ensures Two(cfgs, b, a) && (AtMost(a.start, b.start) ==> (Precedes(a, b) <==> !ShareKey(a, b)))
      ensures AtMost(b.start, a.start) ==> (Precedes(b, a) <==> !ShareKey(a, b))
      ensures AtMost(a.start, b.start) || AtMost(b.start, a.start)
    {
      if AtMost(a.start, b.start) {
        ApartOrShared(a, b);
      }
      if AtMost(b.start, a.start) {
        ApartOrShared(b, a);
        assert ShareKey(a, b) <==> ShareKey(b, a);
      }
      if Less(b.start, a.start) {
        LessIsAtMost(b.start, a.start);
      }
    }
  }

  /** Ranges that share no key can be refused all the same, however they are sorted: an empty range
      inside another one clashes with it. */
  lemma EmptyRangeRefused(cfgs: seq<Entry>, wide: Entry, idle: Entry)
    requires wide == Entry([1], [9], 5) && idle == Entry([3], [3], 7) && cfgs == [wide, idle]
    ensures !MayAccept(cfgs) && forall key :: !Contains(idle, key)
  {
    PlacesAreTwo(cfgs, 0, 1);
    assert Less([3], [9]) && !Precedes(wide, idle);
    forall key ensures !Contains(idle, key) {
      NoneInside(idle, key);
    }
  }

  lemma NoneInside(e: Entry, key: Text)
    requires !NonEmpty(e)
    ensures !Contains(e, key)
  {
    if Contains(e, key) {
      AtMostLess(e.start, key, e.end);
    }
  }

  /** Where an empty range starts with a non-empty one, the order the sort gives them decides. */
  lemma TieDecides(cfgs: seq<Entry>, idle: Entry, busy: Entry)
    requires idle == Entry([1], [1], 6) && busy == Entry([1], [2], 5) && cfgs == [busy, idle]
    ensures MayAccept(cfgs) && !MustAccept(cfgs)
  {
    PlacesAreTwo(cfgs, 0, 1);
    assert !Precedes(busy, idle) && Precedes(idle, busy);
    forall a, b | Two(cfgs, a, b) ensures a != b {
      assert multiset(cfgs) == multiset{busy, idle};
    }
  }

  /** No accepted configuration has a key in two ranges, neighbours or not. */
  lemma FarApart(es: seq<Entry>, i: nat, j: nat)
    requires StartsAscend(es) && Separated(es) && i < j < |es|
    ensures Precedes(es[i], es[j])
  {
    assert Precedes(es[i], es[i + 1]);
    if i + 1 < j {
      AtMostTrans(es[i].end, es[i + 1].start, es[j].start);
    }
  }

  lemma OneRangePerKey(es: seq<Entry>, i: nat, j: nat, key: Text)
    requires StartsAscend(es) && Separated(es) && i < |es| && j < |es|
    requires Contains(es[i], key) && Contains(es[j], key)
    ensures i == j
  {
    if i < j {
      BehindIsBeyond(es, i, j, key);
    } else if j < i {
      BehindIsBeyond(es, j, i, key);
    }
  }

  lemma BehindIsBeyond(es: seq<Entry>, i: nat, j: nat, key: Text)
    requires StartsAscend(es) && Separated(es) && i < j < |es| && Contains(es[i], key)
    ensures Less(key, es[j].start)
  {
    FarApart(es, i, j);
    LessAtMost(key, es[i].end, es[j].start);
  }

  // ---------------------------------------------------------------------------
  // Looking a key up

  /** sort.Search: the first entry that starts beyond the key. */
  method FirstBeyond(es: seq<Entry>, key: Text) returns (i: nat)
    requires StartsAscend(es)
    ensures i <= |es|
    ensures forall j :: 0 <= j < i ==> AtMost(es[j].start, key)
    ensures forall j :: i <= j < |es| ==> Less(key, es[j].start)
  {
    var hi := |es|;
    i := 0;
    while i < hi
      invariant 0 <= i <= hi <= |es|
      invariant forall j :: 0 <= j < i ==> AtMost(es[j].start, key)
      invariant forall j :: hi <= j < |es| ==> Less(key, es[j].start)
    {
      var mid := i + (hi - i) / 2;
      if !Less(key, es[mid].start) {
        forall j | i <= j <= mid ensures AtMost(es[j].start, key) {
          if j < mid {
            AtMostTrans(es[j].start, es[mid].start, key);
          }
        }
        i := mid + 1;
      } else {
        forall j | mid <= j < hi ensures Less(key, es[j].start) {
          if mid < j {
            LessAtMost(key, es[mid].start, es[j].start);
          }
        }
        hi := mid;
      }
    }
  }

  /** GroupIDFor: a group exactly when some range contains the key, and then that range's. */
  method GroupFor(es: seq<Entry>, key: Text) returns (r: Option<GroupId>)
    requires StartsAscend(es) && Separated(es)
    ensures r.Some? <==> exists i :: 0 <= i < |es| && Contains(es[i], key)
    ensures forall i :: 0 <= i < |es| && Contains(es[i], key) ==> r == Some(es[i].group)
  {
    if |es| == 0 {
      return None;
    }
    var i := FirstBeyond(es, key);
    forall j | 0 <= j < |es| && Contains(es[j], key) ensures j == i - 1 {
      if j < i - 1 {
        BehindIsBeyond(es, j, i - 1, key);
      }
    }
    if i == 0 {
      return None;
    }
    var candidate := es[i - 1];
    if candidate.end != [] && !Less(key, candidate.end) {
      return None;
    }
    assert Contains(es[i - 1], key);
    return Some(candidate.group);
  }

  // ---------------------------------------------------------------------------
  // Prefixes

  predicate Selected(e: Entry, prefix: Text) {
    (e.end == [] || Less(prefix, e.end)) && (AtMost(e.start, prefix) || prefix <= e.start)
  }

  /** The groups selected by a sequence of entries, in order. */
  function SelectedGroups(es: seq<Entry>, prefix: Text): seq<GroupId> {
    if es == [] then []
    else SelectedGroups(es[..|es| - 1], prefix) + if Selected(es[|es| - 1], prefix) then [es[|es| - 1].group] else []
  }

  method GroupsForPrefix(es: seq<Entry>, prefix: Text) returns (result: seq<GroupId>)
    ensures result == SelectedGroups(es, prefix)
  {
    result := [];
    for i := 0 to |es|
      invariant result == SelectedGroups(es[..i], prefix)
    {
      assert es[..i + 1][..i] == es[..i];
      var e := es[i];
      if !(e.end == [] || Less(prefix, e.end)) {
        continue;
      }
      if !Less(prefix, e.start) || prefix <= e.start {
        result := result + [e.group];
      }
    }
    assert es[..|es|] == es;
  }

  lemma {:induction false} PrefixAtMost(p: Text, k: Text)
    requires p <= k
    ensures AtMost(p, k)
    decreases |p|
  {
    if p != [] {
      PrefixAtMost(p[1..], k[1..]);
    }
  }

  /** Past a prefix without extending it means past all its extensions. */
  lemma {:induction false} PastAllExtensions(p: Text, s: Text, k: Text)
    requires Less(p, s) && !(p <= s) && p <= k
    ensures Less(k, s)
    decreases |p|
  {
    if p[0] == s[0] {
      PastAllExtensions(p[1..], s[1..], k[1..]);
    }
  }

  ghost predicate HasKeyWith(e: Entry, prefix: Text) {
    exists k :: prefix <= k && Contains(e, k)
  }

  /** An entry is selected exactly when its range holds a key with the prefix, as long as the range
      holds any key at all; an empty range may be selected but holds none. */
  lemma SelectedIffHasKey(e: Entry, prefix: Text)
    ensures HasKeyWith(e, prefix) <==> NonEmpty(e) && Selected(e, prefix)
  {
    if NonEmpty(e) && Selected(e, prefix) {
      LessIrreflexive(e.start);
      var k := if AtMost(e.start, prefix) then prefix else e.start;
      assert prefix <= k && Contains(e, k);
    }
    if HasKeyWith(e, prefix) {
      var k :| prefix <= k && Contains(e, k);
      KeyMeansSelected(e, prefix, k);
    }
  }

  lemma KeyMeansSelected(e: Entry, prefix: Text, k: Text)
    requires prefix <= k && Contains(e, k)
    ensures NonEmpty(e) && Selected(e, prefix)
  {
    PrefixAtMost(prefix, k);
    if e.end != [] {
      AtMostLess(e.start, k, e.end);
      AtMostLess(prefix, k, e.end);
    }
    if Less(prefix, e.start) && !(prefix <= e.start) {
      PastAllExtensions(prefix, e.start, k);
    }
  }

  lemma AtMostLess(a: Text, b: Text, c: Text)
    requires AtMost(a, b) && Less(b, c)
    ensures Less(a, c)
  {
    LessTotal(a, b);
    if Less(a, b) {
      LessTrans(a, b, c);
    }
  }

  /** The router accepts an empty range beside a proper one, and a prefix query then lists its group
      although no key with that prefix, or any key at all, belongs to it. */
  lemma EmptyRangeListed(es: seq<Entry>, idle: Entry)
    requires idle == Entry([3], [3], 7) && es == [Entry([1], [2], 5), idle]
    ensures MustAccept(es)
    ensures SelectedGroups(es, []) == [5, 7]
    ensures !HasKeyWith(idle, []) && forall key :: !Contains(idle, key)
  {
    SelectedIffHasKey(idle, []);
    forall key ensures !Contains(idle, key) {
      assert [] <= key;
    }
    assert es[..1] == [es[0]];
    assert SelectedGroups(es[..1], []) == [5] by {
      assert es[..1][..0] == [];
    }
  }

  /** Some range of the group holds a key with the prefix. */
  ghost predicate Serves(es: seq<Entry>, prefix: Text, g: GroupId) {
    exists i :: 0 <= i < |es| && es[i].group == g && HasKeyWith(es[i], prefix)
  }

  lemma ServesLast(es: seq<Entry>, prefix: Text, g: GroupId)
    requires es != []
    ensures var n := |es| - 1;
            Serves(es, prefix, g) <==> Serves(es[..n], prefix, g) || (es[n].group == g && HasKeyWith(es[n], prefix))
  {
    var n := |es| - 1;
    if Serves(es[..n], prefix, g) {
      var i :| 0 <= i < n && es[..n][i].group == g && HasKeyWith(es[..n][i], prefix);
      assert es[i] == es[..n][i];
    }
    if Serves(es, prefix, g) {
      var i :| 0 <= i < |es| && es[i].group == g && HasKeyWith(es[i], prefix);
      assert i < n ==> es[..n][i] == es[i];
    }
  }

  /** With non-empty ranges only, a group is listed exactly when one of its ranges holds a key with
      the prefix. */
  lemma {:induction false} PrefixGroupsExact(es: seq<Entry>, prefix: Text, g: GroupId)
    requires forall i :: 0 <= i < |es| ==> NonEmpty(es[i])
    ensures g in SelectedGroups(es, prefix) <==> Serves(es, prefix, g)
    decreases |es|
  {
    if es != [] {
      var n := |es| - 1;
      PrefixGroupsExact(es[..n], prefix, g);
      SelectedIffHasKey(es[n], prefix);
      ServesLast(es, prefix, g);
    }
  }
}
