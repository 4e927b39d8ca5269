/** Python's ordering of strings and the `sorted` that the planner applies
    to the set of missing reagent names (generate_idot.py:193). */
module NameOrder {

  /** Python's `a < b` on `str`: lexicographic by code point, a proper
      prefix before the longer string. */
  predicate Less(a: string, b: string) {
    if |a| == 0 then |b| > 0
    else if |b| == 0 then false
    else a[0] < b[0] || (a[0] == b[0] && Less(a[1..], b[1..]))
  }

  lemma {:induction false} LessIrreflexive(a: string)
    ensures !Less(a, a)
  {
    if |a| > 0 {
      LessIrreflexive(a[1..]);
    }
  }

  lemma {:induction false} LessTransitive(a: string, b: string, c: string)
    requires Less(a, b) && Less(b, c)
    ensures Less(a, c)
  {
    if |a| > 0 && a[0] == b[0] && b[0] == c[0] {
      LessTransitive(a[1..], b[1..], c[1..]);
    }
  }

  /** Any two different strings are ordered one way or the other. */
  lemma {:induction false} LessTotal(a: string, b: string)
    requires a != b
    ensures Less(a, b) || Less(b, a)
  {
    if |a| > 0 && |b| > 0 && a[0] == b[0] {
      assert a == [a[0]] + a[1..] && b == [b[0]] + b[1..];
      LessTotal(a[1..], b[1..]);
    }
  }

  predicate StrictlySorted(s: seq<string>) {
    forall i, j :: 0 <= i < j < |s| ==> Less(s[i], s[j])
  }

  /** Inserts a new name into a strictly sorted list at its place. */
  function Insert(x: string, s: seq<string>): (r: seq<string>)
    requires StrictlySorted(s) && x !in s
    ensures StrictlySorted(r)
    ensures |r| == |s| + 1
    ensures forall y :: y in r <==> y == x || y in s
  {
    if |s| == 0 then [x]
    else if Less(x, s[0]) then
      assert forall j :: 0 < j < |s| ==> Less(x, s[j]) by {
        forall j | 0 < j < |s| ensures Less(x, s[j]) {
          LessTransitive(x, s[0], s[j]);
        }
      }
      [x] + s
    else
      LessTotal(x, s[0]);
      var t := Insert(x, s[1..]);
      assert forall y :: y in s[1..] ==> Less(s[0], y);
      [s[0]] + t
  }

  /** `sorted(names)` of a set of strings: every name once, ascending. */
  method SortNames(names: set<string>) returns (r: seq<string>)
    ensures StrictlySorted(r)
    ensures |r| == |names|
    ensures forall x :: x in r <==> x in names
  {
    r := [];
    var rest := names;
    while rest != {}
      invariant StrictlySorted(r)
      invariant forall x :: x in names <==> x in r || x in rest
      invariant forall x :: x in r ==> x !in rest
      invariant |r| + |rest| == |names|
      decreases |rest|
    {
      var x :| x in rest;
      r := Insert(x, r);
      rest := rest - {x};
    }
  }

  lemma LessAsymmetric(a: string, b: string)
    requires Less(a, b)
    ensures !Less(b, a)
  {
    if Less(b, a) {
      LessTransitive(a, b, a);
      LessIrreflexive(a);
    }
  }

  /** The head of a strictly sorted list is below every other element. */
  lemma SortedHead(s: seq<string>, x: string)
    requires StrictlySorted(s) && x in s
    ensures x == s[0] || Less(s[0], x)
  {
    var k :| 0 <= k < |s| && s[k] == x;
    assert k == 0 || Less(s[0], s[k]);
  }

  /** A strictly sorted list is fixed by its elements, so the sorted
      report of a set of names is unique. */
  lemma {:induction false} StrictlySortedUnique(a: seq<string>, b: seq<string>)
    requires StrictlySorted(a) && StrictlySorted(b)
    requires forall x :: x in a <==> x in b
    ensures a == b
  {
    assert |a| > 0 ==> a[0] in b;
    assert |b| > 0 ==> b[0] in a;
    if |a| > 0 && |b| > 0 {
      SortedHead(b, a[0]);
      SortedHead(a, b[0]);
      if Less(a[0], b[0]) {
        LessAsymmetric(a[0], b[0]);
      }
      assert a[0] == b[0];
      LessIrreflexive(a[0]);
      forall x | x in a[1..] ensures x in b[1..] {
        var k :| 0 <= k < |a[1..]| && a[1..][k] == x;
        assert Less(a[0], a[k + 1]);
        assert x in b;
        var j :| 0 <= j < |b| && b[j] == x;
        assert j > 0 && b[1..][j - 1] == x;
      }
      forall x | x in b[1..] ensures x in a[1..] {
        var k :| 0 <= k < |b[1..]| && b[1..][k] == x;
        assert Less(b[0], b[k + 1]);
        assert x in a;
        var j :| 0 <= j < |a| && a[j] == x;
        assert j > 0 && a[1..][j - 1] == x;
      }
      StrictlySortedUnique(a[1..], b[1..]);
      assert a == [a[0]] + a[1..] && b == [b[0]] + b[1..];
    }
  }
}
