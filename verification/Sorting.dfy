/** Sorting, as the sort package provides it: some permutation in the given order. */
module Sorting {
  ghost predicate TotalPreorder<T(!new)>(le: (T, T) -> bool) {
    && (forall x, y :: le(x, y) || le(y, x))
    && (forall x, y, z :: le(x, y) && le(y, z) ==> le(x, z))
  }

  ghost predicate Sorted<T>(le: (T, T) -> bool, s: seq<T>) {
    forall i, j :: 0 <= i < j < |s| ==> le(s[i], s[j])
  }

  // An element not above any of a sorted sequence goes in front of it.
  lemma SortedCons<T(!new)>(le: (T, T) -> bool, x: T, s: seq<T>)
    requires Sorted(le, s) && forall y :: y in s ==> le(x, y)
    ensures Sorted(le, [x] + s)
  {
    forall i, j | 0 <= i < j < |s| + 1 ensures le(([x] + s)[i], ([x] + s)[j]) {
      assert ([x] + s)[j] == s[j - 1];
      if i > 0 {
        assert ([x] + s)[i] == s[i - 1];
      }
    }
  }

  lemma HeadLeast<T(!new)>(le: (T, T) -> bool, s: seq<T>)
    requires TotalPreorder(le) && Sorted(le, s) && s != []
    ensures Sorted(le, s[1..]) && s == [s[0]] + s[1..]
    ensures forall y :: y in s ==> le(s[0], y)
  {
    assert le(s[0], s[0]);
  }

  function Insert<T(!new)>(le: (T, T) -> bool, x: T, s: seq<T>): (r: seq<T>)
    requires TotalPreorder(le) && Sorted(le, s)
    ensures multiset(r) == multiset(s) + multiset{x}
    ensures Sorted(le, r)
  {
    if s == [] then [x]
    else
      HeadLeast(le, s);
      if le(x, s[0]) then
        SortedCons(le, x, s);
        [x] + s
      else
        var r := Insert(le, x, s[1..]);
        Inserted(le, x, s, r);
        [s[0]] + r
  }

  lemma Inserted<T(!new)>(le: (T, T) -> bool, x: T, s: seq<T>, r: seq<T>)
    requires TotalPreorder(le) && Sorted(le, s) && s != [] && !le(x, s[0])
    requires multiset(r) == multiset(s[1..]) + multiset{x} && Sorted(le, r)
    ensures Sorted(le, [s[0]] + r) && multiset([s[0]] + r) == multiset(s) + multiset{x}
  {
    HeadLeast(le, s);
    forall y | y in r ensures le(s[0], y) {
      assert y in multiset(r);
      assert y == x || y in s[1..];
    }
    SortedCons(le, s[0], r);
  }

  function Sort<T(!new)>(le: (T, T) -> bool, s: seq<T>): (r: seq<T>)
    requires TotalPreorder(le)
    ensures multiset(r) == multiset(s)
    ensures Sorted(le, r)
    ensures |r| == |s|
  {
    if s == [] then []
    else
      assert s == [s[0]] + s[1..];
      var r := Insert(le, s[0], Sort(le, s[1..]));
      assert multiset(r) == multiset(s);
      assert |multiset(r)| == |r| && |multiset(s)| == |s|;
      r
  }

  ghost predicate NoDuplicates<T(!new)>(s: seq<T>) {
    forall i, j :: 0 <= i < j < |s| ==> s[i] != s[j]
  }

  lemma {:induction false} CountedOnce<T(!new)>(s: seq<T>, x: T)
    requires NoDuplicates(s)
    ensures multiset(s)[x] <= 1
  {
    if s != [] {
      var n := |s| - 1;
      assert s == s[..n] + [s[n]];
      CountedOnce(s[..n], x);
      assert x == s[n] ==> x !in s[..n];
    }
  }

  lemma TwiceCounted<T(!new)>(s: seq<T>, i: nat, j: nat)
    requires i < j < |s| && s[i] == s[j]
    ensures multiset(s)[s[i]] >= 2
  {
    assert s == s[..j] + s[j..];
    assert s[i] in s[..j] && s[i] in s[j..];
  }

  // Another order brings no duplicates.
  lemma StillOnce<T(!new)>(s: seq<T>, t: seq<T>)
    requires NoDuplicates(s) && multiset(t) == multiset(s)
    ensures NoDuplicates(t)
  {
    forall i, j | 0 <= i < j < |t| ensures t[i] != t[j] {
      if t[i] == t[j] {
        TwiceCounted(t, i, j);
      }
      CountedOnce(s, t[i]);
    }
  }
}
