/**
 * Capability names: the order the server's capability arrays are sorted in,
 * membership by binary search over them (WmClient/WmClient.cs, arrayHasValue),
 * and the filter that builds the requested-capability lists.
 */
module Capabilities {

  /** Ordinal string order: the first differing character decides, and a proper prefix comes first. */
  predicate Less(a: string, b: string)
    decreases |a|
  {
    if |a| == 0 then |b| > 0
    else if |b| == 0 then false
    else if a[0] == b[0] then Less(a[1..], b[1..])
    else a[0] < b[0]
  }

  predicate LessEq(a: string, b: string) {
    a == b || Less(a, b)
  }

  lemma {:induction false} LessIrreflexive(a: string)
    ensures !Less(a, a)
    decreases |a|
  {
    if |a| > 0 {
      LessIrreflexive(a[1..]);
    }
  }

  lemma {:induction false} LessTransitive(a: string, b: string, c: string)
    requires Less(a, b) && Less(b, c)
    ensures Less(a, c)
    decreases |a|
  {
    if |a| > 0 && a[0] == b[0] && b[0] == c[0] {
      LessTransitive(a[1..], b[1..], c[1..]);
    }
  }

  lemma {:induction false} LessTotal(a: string, b: string)
    ensures a == b || Less(a, b) || Less(b, a)
    decreases |a|
  {
    if |a| > 0 && |b| > 0 && a[0] == b[0] {
      LessTotal(a[1..], b[1..]);
      if a[1..] == b[1..] {
        assert a == [a[0]] + a[1..] && b == [b[0]] + b[1..];
      }
    }
  }

  /** What Array.Sort leaves: every name is at most each name after it. */
  predicate Sorted(s: seq<string>) {
    forall i, j :: 0 <= i < j < |s| ==> LessEq(s[i], s[j])
  }

  /** In a sorted array, everything up to a name below `x` is below `x`. */
  lemma BelowPrefix(s: seq<string>, x: string, m: int)
    requires Sorted(s) && 0 <= m < |s| && Less(s[m], x)
    ensures forall i :: 0 <= i <= m ==> Less(s[i], x)
  {
    forall i | 0 <= i < m
      ensures Less(s[i], x)
    {
      if s[i] != s[m] {
        LessTransitive(s[i], s[m], x);
      }
    }
  }

  /** In a sorted array, everything from a name above `x` on is above `x`. */
  lemma AboveSuffix(s: seq<string>, x: string, m: int)
    requires Sorted(s) && 0 <= m < |s| && Less(x, s[m])
    ensures forall i :: m <= i < |s| ==> Less(x, s[i])
  {
    forall i | m < i < |s|
      ensures Less(x, s[i])
    {
      if s[m] != s[i] {
        LessTransitive(x, s[m], s[i]);
      }
    }
  }

  /** A name at most every name of a sorted array goes in front of it. */
  lemma ConsSorted(h: string, t: seq<string>)
    requires Sorted(t) && forall y :: y in t ==> LessEq(h, y)
    ensures Sorted([h] + t)
  {
    forall i, j | 0 <= i < j < |[h] + t|
      ensures LessEq(([h] + t)[i], ([h] + t)[j])
    {
      if i > 0 {
        assert ([h] + t)[i] == t[i - 1] && ([h] + t)[j] == t[j - 1];
      } else {
        assert ([h] + t)[j] == t[j - 1];
      }
    }
  }

  /** One step of an insertion sort: `x` goes in before the first name not below it. */
  function Insert(x: string, s: seq<string>): (r: seq<string>)
    requires Sorted(s)
    ensures Sorted(r) && multiset(r) == multiset(s) + multiset{x}
  {
    if |s| == 0 then
      [x]
    else if LessEq(x, s[0]) then
      forall y | y in s
        ensures LessEq(x, y)
      {
        var j :| 0 <= j < |s| && s[j] == y;
        if j > 0 && x != s[0] && s[0] != y {
          LessTransitive(x, s[0], y);
        }
      }
      ConsSorted(x, s);
      [x] + s
    else
      var t := Insert(x, s[1..]);
      assert s == [s[0]] + s[1..];
      forall y | y in t
        ensures LessEq(s[0], y)
      {
        assert y in multiset(t);
        if y == x {
          LessTotal(x, s[0]);
        } else {
          assert y in multiset(s[1..]);
          var j :| 0 <= j < |s[1..]| && s[1..][j] == y;
          assert s[j + 1] == y;
        }
      }
      ConsSorted(s[0], t);
      [s[0]] + t
  }

  /** Array.Sort on a capability array: the same names, each at most every name after it. */
  function SortNames(s: seq<string>): (r: seq<string>)
    ensures Sorted(r) && multiset(r) == multiset(s)
  {
    if |s| == 0 then
      []
    else
      assert s == [s[0]] + s[1..];
      Insert(s[0], SortNames(s[1..]))
  }

  lemma SortedTail(s: seq<string>)
    requires Sorted(s) && |s| > 0
    ensures Sorted(s[1..])
  {
    forall i, j | 0 <= i < j < |s[1..]|
      ensures LessEq(s[1..][i], s[1..][j])
    {
      assert s[1..][i] == s[i + 1] && s[1..][j] == s[j + 1];
    }
  }

  /** Two sorted arrangements of the same non-empty names start with the same name. */
  lemma SameHead(a: seq<string>, b: seq<string>)
    requires Sorted(a) && Sorted(b) && multiset(a) == multiset(b) && |a| > 0
    ensures |b| > 0 && a[0] == b[0]
  {
    assert a[0] in multiset(b);
    var i :| 0 <= i < |b| && b[i] == a[0];
    assert b[0] in multiset(a);
    var j :| 0 <= j < |a| && a[j] == b[0];
    if a[0] != b[0] {
      assert Less(b[0], a[0]) && Less(a[0], b[0]);
      LessTransitive(a[0], b[0], a[0]);
      LessIrreflexive(a[0]);
    }
  }

  /**
   * Any two sorted arrangements of the same names are the same array, so
   * SortNames is what Array.Sort leaves whichever algorithm it runs.
   */
  lemma {:induction false} SortedUnique(a: seq<string>, b: seq<string>)
    requires Sorted(a) && Sorted(b) && multiset(a) == multiset(b)
    ensures a == b
    decreases |a|
  {
    if |a| == 0 {
      assert |b| == |multiset(b)| == 0;
    } else {
      SameHead(a, b);
      assert a == [a[0]] + a[1..] && b == [b[0]] + b[1..];
      assert multiset(a[1..]) == multiset(a) - multiset{a[0]};
      assert multiset(b[1..]) == multiset(b) - multiset{b[0]};
      SortedTail(a);
      SortedTail(b);
      SortedUnique(a[1..], b[1..]);
    }
  }

  /**
   * Array.BinarySearch over the inclusive range `lo..hi`: the index of an
   * element equal to `x`, or the bitwise complement `-1 - k` of the index
   * `k` at which `x` would be inserted.
   */
  function BinarySearch(s: seq<string>, x: string, lo: int, hi: int): (r: int)
    requires Sorted(s) && 0 <= lo <= hi + 1 <= |s|
    requires forall i :: 0 <= i < lo ==> Less(s[i], x)
    requires forall i :: hi < i < |s| ==> Less(x, s[i])
    ensures 0 <= r ==> r < |s| && s[r] == x
    ensures r < 0 ==> 0 <= -1 - r <= |s|
    ensures r < 0 ==> forall i :: 0 <= i < -1 - r ==> Less(s[i], x)
    ensures r < 0 ==> forall i :: -1 - r <= i < |s| ==> Less(x, s[i])
    decreases hi - lo
  {
    if lo > hi then
      -1 - lo
    else
      var m := lo + (hi - lo) / 2;
      if s[m] == x then
        m
      else if Less(s[m], x) then
        BelowPrefix(s, x, m);
        BinarySearch(s, x, m + 1, hi)
      else
        LessTotal(s[m], x);
        AboveSuffix(s, x, m);
        BinarySearch(s, x, lo, m - 1)
  }

  /** arrayHasValue: `Array.BinarySearch(caps, capName) >= 0`. */
  function ArrayHasValue(caps: seq<string>, name: string): (r: bool)
    requires Sorted(caps)
    ensures r <==> name in caps
  {
    var k := BinarySearch(caps, name, 0, |caps| - 1);
    if k < 0 then
      LessIrreflexive(name);
      false
    else
      true
  }

  /**
   * The names kept, in input order, by a loop that adds a name when it is in
   * `keep` and not in `drop`.
   */
  function Pick(names: seq<string>, keep: seq<string>, drop: seq<string>): seq<string> {
    if |names| == 0 then []
    else (if names[0] in keep && names[0] !in drop then [names[0]] else []) + Pick(names[1..], keep, drop)
  }

  /** A name is picked exactly when it is among the names, in `keep` and not in `drop`. */
  lemma {:induction false} PickMembers(names: seq<string>, keep: seq<string>, drop: seq<string>, x: string)
    ensures x in Pick(names, keep, drop) <==> x in names && x in keep && x !in drop
    decreases |names|
  {
    if |names| > 0 {
      PickMembers(names[1..], keep, drop, x);
      assert names == [names[0]] + names[1..];
    }
  }

  /** Picking one more name appends it or nothing: what a single loop step does. */
  lemma {:induction false} PickSnoc(names: seq<string>, n: string, keep: seq<string>, drop: seq<string>)
    ensures Pick(names + [n], keep, drop) == Pick(names, keep, drop) + (if n in keep && n !in drop then [n] else [])
    decreases |names|
  {
    if |names| > 0 {
      assert (names + [n])[1..] == names[1..] + [n];
      PickSnoc(names[1..], n, keep, drop);
    }
  }

  /** `a` occurs in `b` in order, possibly with gaps. */
  predicate Subsequence(a: seq<string>, b: seq<string>)
    decreases |b|
  {
    |a| == 0 || (|b| > 0 && if a[0] == b[0] then Subsequence(a[1..], b[1..]) else Subsequence(a, b[1..]))
  }

  /** Picking keeps the input order. */
  lemma {:induction false} PickOrder(names: seq<string>, keep: seq<string>, drop: seq<string>)
    ensures Subsequence(Pick(names, keep, drop), names)
    decreases |names|
  {
    if |names| > 0 {
      PickOrder(names[1..], keep, drop);
      var rest := Pick(names[1..], keep, drop);
      if names[0] in keep && names[0] !in drop {
        assert ([names[0]] + rest)[1..] == rest;
      } else {
        assert Pick(names, keep, drop) == rest;
        if |rest| > 0 && rest[0] == names[0] {
          PickMembers(names[1..], keep, drop, names[0]);
        }
      }
    }
  }
}
