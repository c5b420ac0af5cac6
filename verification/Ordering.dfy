/** Go's string order, and sorting as "some sorted permutation": sort.Slice is not
    stable, so only what every such permutation shares may be relied on. */
module Ordering {

  /** Go's `<` on strings. */
  predicate Less(a: string, b: string) {
    if b == "" then false
    else if a == "" then true
    else if a[0] != b[0] then a[0] < b[0]
    else Less(a[1..], b[1..])
  }

  lemma {:induction false} LessIrreflexive(a: string)
    ensures !Less(a, a)
  {
    if a != "" { LessIrreflexive(a[1..]); }
  }

  lemma {:induction false} LessTransitive(a: string, b: string, c: string)
    requires Less(a, b) && Less(b, c)
    ensures Less(a, c)
  {
    if a != "" && a[0] == b[0] && b[0] == c[0] { LessTransitive(a[1..], b[1..], c[1..]); }
  }

  lemma {:induction false} LessTotal(a: string, b: string)
    requires a != b
    ensures Less(a, b) || Less(b, a)
  {
    if a != "" && b != "" && a[0] == b[0] {
      assert a == [a[0]] + a[1..] && b == [b[0]] + b[1..];
      LessTotal(a[1..], b[1..]);
    }
  }

  /** The first is a proper prefix of the second, or smaller at the first difference. */
  ghost predicate Precedes(a: string, b: string) {
    || (|a| < |b| && b[..|a|] == a)
    || exists i :: 0 <= i < |a| && i < |b| && a[..i] == b[..i] && a[i] < b[i]
  }

  lemma {:induction false} LessFinds(a: string, b: string)
    requires Less(a, b)
    ensures Precedes(a, b)
  {
    if a != "" && a[0] == b[0] {
      var u, v := a[1..], b[1..];
      LessFinds(u, v);
      assert a == [a[0]] + u && b == [b[0]] + v;
      if |u| < |v| && v[..|u|] == u {
        assert b[..|a|] == [b[0]] + v[..|u|];
      } else {
        var i :| 0 <= i < |u| && i < |v| && u[..i] == v[..i] && u[i] < v[i];
        assert a[..i+1] == [a[0]] + u[..i] && b[..i+1] == [b[0]] + v[..i];
        assert a[i+1] < b[i+1];
      }
    } else if a != "" {
      assert a[..0] == b[..0];
    }
  }

  lemma PrecedesApart(a: string, b: string)
    ensures !(Precedes(a, b) && Precedes(b, a)) && !Precedes(a, a)
  {
    if i :| 0 <= i < |a| && i < |b| && a[..i] == b[..i] && a[i] < b[i] {
      if j :| 0 <= j < |a| && j < |b| && a[..j] == b[..j] && b[j] < a[j] {
        assert i < j ==> a[..j][i] == b[..j][i];
        assert j < i ==> a[..i][j] == b[..i][j];
      }
    }
  }

  /** Strings are compared at their first difference. */
  lemma LessMeaning(a: string, b: string)
    ensures Less(a, b) <==> Precedes(a, b)
  {
    if Less(a, b) {
      LessFinds(a, b);
    } else if a != b {
      LessTotal(a, b);
      LessFinds(b, a);
      PrecedesApart(a, b);
    } else {
      PrecedesApart(a, a);
    }
  }

  ghost predicate StrictTotal<T(!new)>(less: (T, T) -> bool) {
    && (forall a :: !less(a, a))
    && (forall a, b, c :: less(a, b) && less(b, c) ==> less(a, c))
    && (forall a, b :: a != b ==> less(a, b) || less(b, a))
  }

  lemma LessStrictTotal()
    ensures StrictTotal(Less)
  {
    forall a ensures !Less(a, a) { LessIrreflexive(a); }
    forall a, b, c | Less(a, b) && Less(b, c) ensures Less(a, c) { LessTransitive(a, b, c); }
    forall a, b | a != b ensures Less(a, b) || Less(b, a) { LessTotal(a, b); }
  }

  /** What sort.Slice promises: no later element is less than an earlier one. */
  predicate Sorted<T>(s: seq<T>, less: (T, T) -> bool) {
    forall i, j :: 0 <= i < j < |s| ==> !less(s[j], s[i])
  }

  /** A strict weak order, as a comparator that looks only at part of its arguments is. */
  ghost predicate StrictWeak<T(!new)>(less: (T, T) -> bool) {
    && (forall a :: !less(a, a))
    && (forall a, b, c :: less(a, b) && less(b, c) ==> less(a, c))
    && (forall a, b, c :: !less(a, b) && !less(b, c) ==> !less(a, c))
  }

  lemma SortedConcat<T>(a: seq<T>, b: seq<T>, less: (T, T) -> bool)
    requires Sorted(a, less) && Sorted(b, less)
    requires forall i, j :: 0 <= i < |a| && 0 <= j < |b| ==> !less(b[j], a[i])
    ensures Sorted(a + b, less)
  {
  }

  lemma SortedCons<T>(x: T, s: seq<T>, less: (T, T) -> bool)
    requires Sorted(s, less) && forall y :: y in s ==> !less(y, x)
    ensures Sorted([x] + s, less)
  {
  }

  lemma SortedParts<T>(s: seq<T>, i: nat, less: (T, T) -> bool)
    requires Sorted(s, less) && i <= |s|
    ensures Sorted(s[..i], less) && Sorted(s[i..], less)
    ensures forall k, j :: 0 <= k < i && 0 <= j < |s| - i ==> !less(s[i..][j], s[..i][k])
  {
  }

  /** One insertion into a sorted sequence. */
  method Insert<T(!new)>(x: T, s: seq<T>, less: (T, T) -> bool) returns (r: seq<T>)
    requires StrictWeak(less) && Sorted(s, less)
    ensures Sorted(r, less)
    ensures multiset(r) == multiset(s) + multiset{x}
  {
    var i := 0;
    while i < |s| && less(s[i], x)
      invariant 0 <= i <= |s|
      invariant forall j :: 0 <= j < i ==> less(s[j], x)
    {
      i := i + 1;
    }
    assert s == s[..i] + s[i..];
    SortedParts(s, i, less);
    var upper := [x] + s[i..];
    assert Sorted(upper, less) by {
      forall y | y in s[i..] ensures !less(y, x) {
        assert !less(s[i], x);
      }
      SortedCons(x, s[i..], less);
    }
    forall k, j | 0 <= k < i && 0 <= j < |upper| ensures !less(upper[j], s[..i][k]) {
      assert !less(s[k], s[k]);
    }
    SortedConcat(s[..i], upper, less);
    r := s[..i] + upper;
  }

  method Sort<T(!new)>(s: seq<T>, less: (T, T) -> bool) returns (r: seq<T>)
    requires StrictWeak(less)
    ensures Sorted(r, less)
    ensures multiset(r) == multiset(s)
  {
    r := [];
    for i := 0 to |s|
      invariant Sorted(r, less)
      invariant multiset(r) == multiset(s[..i])
    {
      r := Insert(s[i], r, less);
      assert s[..i+1] == s[..i] + [s[i]];
    }
    assert s[..|s|] == s;
  }

  /** Elements that the comparator cannot tell apart are equal. */
  predicate Separates<T(==)>(s: seq<T>, less: (T, T) -> bool) {
    forall i, j :: 0 <= i < |s| && 0 <= j < |s| && !less(s[i], s[j]) && !less(s[j], s[i]) ==> s[i] == s[j]
  }

  lemma SameHead<T>(s: seq<T>, t: seq<T>, less: (T, T) -> bool)
    requires s != [] && t != [] && multiset(s) == multiset(t)
    requires Sorted(s, less) && Sorted(t, less) && Separates(s, less)
    ensures s[0] == t[0]
  {
    assert s[0] in multiset(t) && t[0] in multiset(s);
    var k :| 0 <= k < |t| && t[k] == s[0];
    var m :| 0 <= m < |s| && s[m] == t[0];
    assert k == 0 || !less(t[k], t[0]);
    assert m == 0 || !less(s[m], s[0]);
  }

  /** The sorted permutation is unique when ties are equal elements: an unstable sort
      cannot be observed. */
  lemma {:induction false} SortedUnique<T>(s: seq<T>, t: seq<T>, less: (T, T) -> bool)
    requires multiset(s) == multiset(t)
    requires Sorted(s, less) && Sorted(t, less) && Separates(s, less)
    ensures s == t
  {
    assert |s| == |multiset(s)| == |multiset(t)| == |t|;
    if s != [] {
      SameHead(s, t, less);
      var u, v := s[1..], t[1..];
      TailMultiset(s);
      TailMultiset(t);
      SortedParts(s, 1, less);
      SortedParts(t, 1, less);
      SeparatesTail(s, less);
      SortedUnique(u, v, less);
      assert s == [s[0]] + u && t == [s[0]] + v;
    }
  }

  lemma TailMultiset<T>(s: seq<T>)
    requires s != []
    ensures multiset(s[1..]) == multiset(s) - multiset{s[0]}
  {
    assert s == [s[0]] + s[1..];
  }

  lemma SeparatesTail<T>(s: seq<T>, less: (T, T) -> bool)
    requires s != [] && Separates(s, less)
    ensures Separates(s[1..], less)
  {
  }

  lemma TotalIsWeak<T(!new)>(less: (T, T) -> bool)
    requires StrictTotal(less)
    ensures StrictWeak(less)
    ensures forall s: seq<T> :: Separates(s, less)
  {
    forall a, b, c | !less(a, b) && !less(b, c) ensures !less(a, c) {
      assert a == b || less(b, a);
    }
  }

  /** Multiplicities add up over positions. */
  lemma TwoPlaces<T>(s: seq<T>, i: nat, j: nat)
    requires i < j < |s|
    ensures s[i] == s[j] ==> multiset(s)[s[i]] >= 2
    ensures multiset(s)[s[i]] >= 1 && multiset(s)[s[j]] >= 1
  {
    var a, b := s[..j], s[j..];
    assert s == a + b;
    assert s[i] == a[i] && s[j] == b[0];
    assert a[i] in multiset(a) && b[0] in multiset(b);
  }

  /** sort.Strings; equal strings are interchangeable, so the result is a function. */
  function SortStrings(s: seq<string>): seq<string> {
    if s == [] then [] else InsertString(s[0], SortStrings(s[1..]))
  }

  function InsertString(x: string, s: seq<string>): seq<string> {
    if s == [] || !Less(s[0], x) then [x] + s else [s[0]] + InsertString(x, s[1..])
  }

  lemma NotLessChain(x: string, y: string, z: string)
    requires !Less(x, y) && !Less(y, z)
    ensures !Less(x, z)
  {
    LessStrictTotal();
    TotalIsWeak(Less);
  }

  lemma HeadIsLeast(x: string, s: seq<string>)
    requires Sorted(s, Less) && (s == [] || !Less(s[0], x))
    ensures Sorted([x] + s, Less)
  {
    forall i | 0 <= i < |s| ensures !Less(s[i], x) { if i > 0 { NotLessChain(s[i], s[0], x); } }
    SortedCons(x, s, Less);
  }

  lemma HeadStaysLeast(s: seq<string>, rest: seq<string>, x: string)
    requires s != [] && Sorted(s, Less) && Less(s[0], x)
    requires Sorted(rest, Less) && multiset(rest) == multiset(s[1..]) + multiset{x}
    ensures Sorted([s[0]] + rest, Less)
  {
    forall i | 0 <= i < |rest| ensures !Less(rest[i], s[0]) {
      assert rest[i] in multiset(rest);
      if rest[i] == x {
        LessStrictTotal();
      } else {
        assert rest[i] in s[1..];
      }
    }
    SortedCons(s[0], rest, Less);
  }

  lemma {:induction false} InsertStringSorts(x: string, s: seq<string>)
    requires Sorted(s, Less)
    ensures multiset(InsertString(x, s)) == multiset(s) + multiset{x}
    ensures Sorted(InsertString(x, s), Less)
  {
    if s == [] || !Less(s[0], x) {
      HeadIsLeast(x, s);
    } else {
      assert s == [s[0]] + s[1..];
      SortedParts(s, 1, Less);
      InsertStringSorts(x, s[1..]);
      HeadStaysLeast(s, InsertString(x, s[1..]), x);
    }
  }

  lemma {:induction false} SortStringsSorts(s: seq<string>)
    ensures multiset(SortStrings(s)) == multiset(s)
    ensures Sorted(SortStrings(s), Less)
  {
    if s != [] {
      SortStringsSorts(s[1..]);
      InsertStringSorts(s[0], SortStrings(s[1..]));
      assert s == [s[0]] + s[1..];
    }
  }

  lemma SortStringsPermutation(s: seq<string>, t: seq<string>)
    requires multiset(s) == multiset(t)
    ensures SortStrings(s) == SortStrings(t)
  {
    SortStringsSorts(s);
    SortStringsSorts(t);
    LessStrictTotal();
    TotalIsWeak(Less);
    SortedUnique(SortStrings(s), SortStrings(t), Less);
  }
}
