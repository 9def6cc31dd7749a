/** Migration versions: the digit run of a `Version<digits>` class name, compared the way
    PHP's `sort` and `ksort` compare numeric strings, by numeric value. */
module Versions {
  import opened Strings

  type Version = s: string | IsDigits(s)

  /** Ascending version order: by numeric value; two spellings of the same value
      (differing only in leading zeros) are ordered shorter first. */
  predicate Less(a: Version, b: Version) {
    || DigitsValue(a) < DigitsValue(b)
    || (DigitsValue(a) == DigitsValue(b) && |a| < |b|)
  }

  lemma LastDigitSplit(x: nat, d: nat, y: nat, e: nat)
    requires d < 10 && e < 10 && x * 10 + d == y * 10 + e
    ensures x == y && d == e
  {
    assert x == (x * 10 + d) / 10 && y == (y * 10 + e) / 10;
  }

  /** Two digit strings of the same width and value are the same string. */
  lemma {:induction false} SameWidthSameValue(a: Version, b: Version)
    requires |a| == |b| && DigitsValue(a) == DigitsValue(b)
    ensures a == b
  {
    if |a| > 0 {
      var n := |a| - 1;
      var a', b' := a[..n], b[..n];
      LastDigitSplit(DigitsValue(a'), DigitValue(a[n]), DigitsValue(b'), DigitValue(b[n]));
      SameWidthSameValue(a', b');
      assert a == a' + [a[n]] && b == b' + [b[n]];
    }
  }

  /** `Less` is a strict total order on versions. */
  lemma Trichotomy(a: Version, b: Version)
    ensures a == b || Less(a, b) || Less(b, a)
    ensures !(Less(a, b) && Less(b, a)) && !Less(a, a)
  {
    if |a| == |b| && DigitsValue(a) == DigitsValue(b) {
      SameWidthSameValue(a, b);
    }
  }

  /** Strictly ascending, hence without repetitions. */
  predicate Sorted(s: seq<Version>) {
    forall i, j :: 0 <= i < j < |s| ==> Less(s[i], s[j])
  }

  /** Putting a version in front of an ascending list of larger versions keeps it ascending. */
  lemma Cons(h: Version, t: seq<Version>)
    requires Sorted(t)
    requires forall x :: x in t ==> Less(h, x)
    ensures Sorted([h] + t)
  {
    forall i, j | 0 <= i < j < |[h] + t|
      ensures Less(([h] + t)[i], ([h] + t)[j])
    {
      if i > 0 {
        assert ([h] + t)[i] == t[i - 1] && ([h] + t)[j] == t[j - 1];
      } else {
        assert ([h] + t)[j] == t[j - 1];
        assert t[j - 1] in t;
      }
    }
  }

  /** Adds `v` to a sorted sequence at its place; a version already present is not repeated. */
  function Insert(s: seq<Version>, v: Version): (r: seq<Version>)
    requires Sorted(s)
    ensures Sorted(r)
    ensures forall x :: x in r <==> x in s || x == v
    ensures v in s ==> r == s
  {
    if s == [] then [v]
    else if v == s[0] then s
    else if Less(v, s[0]) then
      assert forall x :: x in s ==> x == s[0] || Less(s[0], x);
      Cons(v, s);
      [v] + s
    else
      Trichotomy(v, s[0]);
      var r' := Insert(s[1..], v);
      assert forall x :: x in s[1..] ==> Less(s[0], x);
      Cons(s[0], r');
      [s[0]] + r'
  }

  /** Drops `v` from a sorted sequence (SQL `DELETE ... WHERE version = v`). */
  function Remove(s: seq<Version>, v: Version): (r: seq<Version>)
    requires Sorted(s)
    ensures Sorted(r)
    ensures forall x :: x in r <==> x in s && x != v
    ensures v !in s ==> r == s
  {
    if s == [] then []
    else if s[0] == v then
      assert forall x :: x in s[1..] ==> x != v by { Trichotomy(v, v); }
      Remove(s[1..], v)
    else
      var r' := Remove(s[1..], v);
      assert forall x :: x in s[1..] ==> Less(s[0], x);
      Cons(s[0], r');
      [s[0]] + r'
  }

  /** PHP `sort` on a list of version strings. */
  function Sort(s: seq<Version>): (r: seq<Version>)
    ensures Sorted(r)
    ensures forall x :: x in r <==> x in s
  {
    if s == [] then [] else Insert(Sort(s[..|s| - 1]), s[|s| - 1])
  }

  /** A set of versions has exactly one ascending listing. */
  lemma {:induction false} SortedUnique(a: seq<Version>, b: seq<Version>)
    requires Sorted(a) && Sorted(b)
    requires forall x :: x in a <==> x in b
    ensures a == b
  {
    assert a != [] ==> a[0] in b;
    assert b != [] ==> b[0] in a;
    if a != [] {
      var k :| 0 <= k < |b| && b[k] == a[0];
      var m :| 0 <= m < |a| && a[m] == b[0];
      assert k != 0 ==> Less(b[0], b[k]);
      assert m != 0 ==> Less(a[0], a[m]);
      Trichotomy(a[0], b[0]);
      assert a[0] == b[0];
      forall x ensures x in a[1..] <==> x in b[1..] {
        if x in a[1..] {
          var k :| 1 <= k < |a| && a[k] == x;
          assert Less(a[0], a[k]);
          Trichotomy(a[0], a[0]);
          assert x in b && x != b[0];
          var m :| 0 <= m < |b| && b[m] == x;
          assert m != 0 && x == b[1..][m - 1];
        }
        if x in b[1..] {
          var k :| 1 <= k < |b| && b[k] == x;
          assert Less(b[0], b[k]);
          Trichotomy(b[0], b[0]);
          assert x in a && x != a[0];
          var m :| 0 <= m < |a| && a[m] == x;
          assert m != 0 && x == a[1..][m - 1];
        }
      }
      SortedUnique(a[1..], b[1..]);
      assert a == [a[0]] + a[1..] && b == [b[0]] + b[1..];
    }
  }

  /** Sorting an already ascending list changes nothing. */
  lemma SortSorted(s: seq<Version>)
    requires Sorted(s)
    ensures Sort(s) == s
  {
    SortedUnique(Sort(s), s);
  }
}
