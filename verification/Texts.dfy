/** Go strings as byte sequences: the order sort.Strings uses, and the sorted listing of a set. */
module Texts {
  import opened LogTypes

  type Text = seq<byte>

  predicate Less(a: Text, b: Text) {
    b != [] && (a == [] || a[0] < b[0] || (a[0] == b[0] && Less(a[1..], b[1..])))
  }

  lemma {:induction false} LessTrans(a: Text, b: Text, c: Text)
    requires Less(a, b) && Less(b, c)
    ensures Less(a, c)
  {
    if a != [] && a[0] == b[0] == c[0] {
      LessTrans(a[1..], b[1..], c[1..]);
    }
  }

  lemma {:induction false} LessTotal(a: Text, b: Text)
    ensures a == b || Less(a, b) || Less(b, a)
  {
    if a != [] && b != [] && a[0] == b[0] {
      LessTotal(a[1..], b[1..]);
      assert a == [a[0]] + a[1..] && b == [b[0]] + b[1..];
    }
  }

  lemma {:induction false} LessIrreflexive(a: Text)
    ensures !Less(a, a)
  {
    if a != [] {
      LessIrreflexive(a[1..]);
    }
  }

  lemma LessAsymmetric(a: Text, b: Text)
    requires Less(a, b)
    ensures !Less(b, a)
  {
    if Less(b, a) {
      LessTrans(a, b, a);
      LessIrreflexive(a);
    }
  }

  predicate Ascending(s: seq<Text>) {
    forall i, j :: 0 <= i < j < |s| ==> Less(s[i], s[j])
  }

  ghost predicate Lists(s: seq<Text>, keys: set<Text>) {
    Ascending(s) && forall k :: k in s <==> k in keys
  }

  lemma {:induction false} LeastExists(keys: set<Text>) returns (m: Text)
    requires keys != {}
    ensures m in keys && forall k :: k in keys && k != m ==> Less(m, k)
    decreases keys
  {
    var x :| x in keys;
    var rest := keys - {x};
    assert forall k :: k in keys && k != x ==> k in rest;
    if rest == {} {
      return x;
    }
    var n := LeastExists(rest);
    LessTotal(x, n);
    if Less(n, x) {
      return n;
    }
    forall k | k in keys && k != x ensures Less(x, k) {
      if k != n {
        LessTrans(x, n, k);
      }
    }
    m := x;
  }

  lemma SplitFirst(s: seq<Text>, keys: set<Text>)
    requires Lists(s, keys) && s != []
    ensures s[0] in keys && Lists(s[1..], keys - {s[0]})
    ensures forall k :: k in keys && k != s[0] ==> Less(s[0], k)
  {
    LessIrreflexive(s[0]);
    assert s == [s[0]] + s[1..];
    assert forall k :: k in s[1..] ==> Less(s[0], k);
  }

  lemma BothEmpty(a: seq<Text>, b: seq<Text>)
    requires forall k :: k in a <==> k in b
    ensures a == [] <==> b == []
  {
    if a != [] {
      assert a[0] in b;
    }
    if b != [] {
      assert b[0] in a;
    }
  }

  /** There is one sorted listing of a set. */
  lemma {:induction false} ListingUnique(a: seq<Text>, b: seq<Text>, keys: set<Text>)
    requires Lists(a, keys) && Lists(b, keys)
    ensures a == b
    decreases |a|
  {
    BothEmpty(a, b);
    if a != [] {
      SplitFirst(a, keys);
      SplitFirst(b, keys);
      if a[0] != b[0] {
        LessAsymmetric(a[0], b[0]);
      }
      ListingUnique(a[1..], b[1..], keys - {a[0]});
      assert a == [a[0]] + a[1..] && b == [b[0]] + b[1..];
    }
  }

  lemma {:induction false} ListingExists(keys: set<Text>) returns (s: seq<Text>)
    ensures Lists(s, keys) && |s| == |keys|
    decreases keys
  {
    if keys == {} {
      s := [];
    } else {
      var m := LeastExists(keys);
      var rest := ListingExists(keys - {m});
      s := [m] + rest;
      assert forall i :: 0 <= i < |rest| ==> rest[i] in rest;
    }
  }

  /** The keys in ascending order. */
  ghost function Sorted(keys: set<Text>): (s: seq<Text>)
    ensures Lists(s, keys)
  {
    ListingNonEmpty(keys);
    var s :| Lists(s, keys);
    s
  }

  lemma ListingNonEmpty(keys: set<Text>)
    ensures exists s :: Lists(s, keys)
  {
    var s := ListingExists(keys);
  }

  lemma SortedIs(s: seq<Text>, keys: set<Text>)
    requires Lists(s, keys)
    ensures s == Sorted(keys)
  {
    ListingUnique(s, Sorted(keys), keys);
  }

  // ---------------------------------------------------------------------------
  // Map loops

  /** A map loop visits every key once, in an order of its own choosing. */
  ghost predicate Visits(order: seq<Text>, keys: set<Text>) {
    && (forall i, j :: 0 <= i < j < |order| ==> order[i] != order[j])
    && (forall k :: k in order <==> k in keys)
  }

  lemma {:induction false} VisitCount(order: seq<Text>, keys: set<Text>)
    requires Visits(order, keys)
    ensures |order| == |keys|
    decreases |order|
  {
    if order == [] {
      assert keys == {};
    } else {
      var last, front := order[|order| - 1], order[..|order| - 1];
      assert order == front + [last];
      VisitCount(front, keys - {last});
    }
  }

  /** One step of a loop that collects the keys of `wanted` it comes across. */
  lemma VisitOne(order: seq<Text>, wanted: set<Text>, todo: set<Text>, k: Text)
    requires Visits(order, wanted - todo) && k in todo
    ensures k in wanted ==> Visits(order + [k], wanted - (todo - {k}))
    ensures k !in wanted ==> Visits(order, wanted - (todo - {k}))
  {
    assert k !in order;
  }

  // ---------------------------------------------------------------------------
  // Sorting

  /** Insertion into a sorted run. */
  lemma InsertedAscends(run: seq<Text>, i: nat, k: Text)
    requires Ascending(run) && i <= |run|
    requires forall j :: 0 <= j < i ==> Less(run[j], k)
    requires forall j :: i <= j < |run| ==> Less(k, run[j])
    ensures Ascending(run[..i] + [k] + run[i..])
  {
    var r := run[..i] + [k] + run[i..];
    forall a, b | 0 <= a < b < |r| ensures Less(r[a], r[b]) {
      assert a < i ==> r[a] == run[a];
      assert a > i ==> r[a] == run[a - 1];
      assert b > i ==> r[b] == run[b - 1];
    }
  }

  lemma InsertedContents(run: seq<Text>, i: nat, k: Text)
    requires i <= |run|
    ensures forall x :: x in run[..i] + [k] + run[i..] <==> x in run || x == k
  {
    assert run == run[..i] + run[i..];
  }

  method InsertSorted(run: seq<Text>, k: Text) returns (r: seq<Text>)
    requires Ascending(run) && k !in run
    ensures Ascending(r) && |r| == |run| + 1
    ensures forall x :: x in r <==> x in run || x == k
  {
    var i := |run|;
    while i > 0 && Less(k, run[i - 1])
      invariant 0 <= i <= |run|
      invariant forall j :: i <= j < |run| ==> Less(k, run[j])
    {
      i := i - 1;
    }
    if i > 0 {
      LessTotal(k, run[i - 1]);
      assert Less(run[i - 1], k);
      forall j | 0 <= j < i ensures Less(run[j], k) {
        if j < i - 1 {
          LessTrans(run[j], run[i - 1], k);
        }
      }
    }
    r := run[..i] + [k] + run[i..];
    InsertedAscends(run, i, k);
    InsertedContents(run, i, k);
  }

  /** sort.Strings on keys collected from a map loop. */
  method Sort(keys: seq<Text>, ghost all: set<Text>) returns (r: seq<Text>)
    requires Visits(keys, all)
    ensures r == Sorted(all) && |r| == |keys|
  {
    r := [];
    for i := 0 to |keys|
      invariant |r| == i && Ascending(r) && forall k :: k in r <==> k in keys[..i]
    {
      assert keys[..i + 1] == keys[..i] + [keys[i]];
      r := InsertSorted(r, keys[i]);
    }
    assert keys[..|keys|] == keys;
    SortedIs(r, all);
  }
}
