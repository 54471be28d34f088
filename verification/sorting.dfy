/** A stable sort (Python's `sorted`, JavaScript's `sort`) and the code-point order of strings. */
module Sorting {
  import opened Sequences

  ghost predicate TotalPreorder<T(!new)>(le: (T, T) -> bool) {
    && (forall a, b :: le(a, b) || le(b, a))
    && (forall a, b, c :: le(a, b) && le(b, c) ==> le(a, c))
  }

  ghost predicate Sorted<T>(le: (T, T) -> bool, s: seq<T>) {
    forall i, j :: 0 <= i < j < |s| ==> le(s[i], s[j])
  }

  function Insert<T>(le: (T, T) -> bool, x: T, s: seq<T>): seq<T> {
    if s == [] || le(x, s[0]) then [x] + s else [s[0]] + Insert(le, x, s[1..])
  }

  function Sort<T>(le: (T, T) -> bool, s: seq<T>): seq<T> {
    if s == [] then [] else Insert(le, s[0], Sort(le, s[1..]))
  }

  lemma {:induction false} InsertBag<T>(le: (T, T) -> bool, x: T, s: seq<T>)
    ensures multiset(Insert(le, x, s)) == multiset(s) + multiset{x}
  {
    if s == [] || le(x, s[0]) {
    } else {
      InsertBag(le, x, s[1..]);
      assert s == [s[0]] + s[1..];
    }
  }

  lemma ConsSorted<T(!new)>(le: (T, T) -> bool, h: T, t: seq<T>)
    requires Sorted(le, t) && forall y :: y in t ==> le(h, y)
    ensures Sorted(le, [h] + t)
  {
  }

  lemma {:induction false} InsertSorts<T(!new)>(le: (T, T) -> bool, x: T, s: seq<T>)
    requires TotalPreorder(le) && Sorted(le, s)
    ensures Sorted(le, Insert(le, x, s))
    ensures multiset(Insert(le, x, s)) == multiset(s) + multiset{x}
  {
    InsertBag(le, x, s);
    if s == [] {
    } else if le(x, s[0]) {
      ConsSorted(le, x, s);
    } else {
      var t := Insert(le, x, s[1..]);
      InsertSorts(le, x, s[1..]);
      forall y | y in t ensures le(s[0], y) {
        assert y in multiset(t);
        assert y == x || y in s[1..];
      }
      ConsSorted(le, s[0], t);
    }
  }

  /** The sorted list is a sorted permutation of its input. */
  lemma {:induction false} SortSorts<T(!new)>(le: (T, T) -> bool, s: seq<T>)
    requires TotalPreorder(le)
    ensures Sorted(le, Sort(le, s))
    ensures multiset(Sort(le, s)) == multiset(s)
  {
    if s == [] {
    } else {
      SortSorts(le, s[1..]);
      InsertSorts(le, s[0], Sort(le, s[1..]));
      assert s == [s[0]] + s[1..];
    }
  }

  lemma SortMember<T(!new)>(le: (T, T) -> bool, s: seq<T>, x: T)
    requires TotalPreorder(le)
    ensures x in Sort(le, s) <==> x in s
    ensures |Sort(le, s)| == |s|
  {
    SortSorts(le, s);
    assert x in s <==> x in multiset(s);
    assert x in Sort(le, s) <==> x in multiset(Sort(le, s));
    assert |multiset(Sort(le, s))| == |multiset(s)|;
  }

  lemma {:induction false} SortOfSorted<T(!new)>(le: (T, T) -> bool, s: seq<T>)
    requires Sorted(le, s)
    ensures Sort(le, s) == s
  {
    if s == [] {
    } else {
      SortOfSorted(le, s[1..]);
      assert s == [s[0]] + s[1..];
      if |s| > 1 { assert le(s[0], s[1]) && s[1..][0] == s[1]; }
    }
  }

  lemma SortPair<T(!new)>(le: (T, T) -> bool, a: T, b: T)
    ensures Sort(le, [a, b]) == if le(a, b) then [a, b] else [b, a]
  {
    assert [a, b][1..] == [b] && [b][1..] == [];
    assert Sort(le, [b]) == Insert(le, b, []) == [b];
    assert Insert(le, a, []) == [a];
  }

  lemma {:induction false} InsertFilter<T(!new)>(le: (T, T) -> bool, p: T -> bool, x: T, s: seq<T>)
    requires TotalPreorder(le) && Sorted(le, s)
    ensures Filter(p, Insert(le, x, s)) == if p(x) then Insert(le, x, Filter(p, s)) else Filter(p, s)
  {
    if s == [] {
    } else if le(x, s[0]) {
      assert ([x] + s)[1..] == s;
      if p(x) && Filter(p, s) != [] {
        var h := Filter(p, s)[0];
        FilterMember(p, s, h);
        var j :| 0 <= j < |s| && s[j] == h;
        assert j > 0 ==> le(s[0], s[j]);
        assert le(x, h);
      }
    } else {
      InsertFilter(le, p, x, s[1..]);
      assert ([s[0]] + Insert(le, x, s[1..]))[1..] == Insert(le, x, s[1..]);
      if p(x) && p(s[0]) {
        assert Filter(p, s)[1..] == Filter(p, s[1..]);
      }
    }
  }

  /** Stability: selecting after sorting is sorting the selection. */
  lemma {:induction false} SortFilter<T(!new)>(le: (T, T) -> bool, p: T -> bool, s: seq<T>)
    requires TotalPreorder(le)
    ensures Filter(p, Sort(le, s)) == Sort(le, Filter(p, s))
  {
    if s == [] {
    } else {
      SortFilter(le, p, s[1..]);
      SortSorts(le, s[1..]);
      InsertFilter(le, p, s[0], Sort(le, s[1..]));
      if p(s[0]) { assert ([s[0]] + Filter(p, s[1..]))[1..] == Filter(p, s[1..]); }
    }
  }

  /** Elements the order does not tell apart keep their order. */
  lemma EqualsKeepOrder<T(!new)>(le: (T, T) -> bool, p: T -> bool, s: seq<T>)
    requires TotalPreorder(le) && forall a, b :: p(a) && p(b) ==> le(a, b)
    ensures Filter(p, Sort(le, s)) == Filter(p, s)
  {
    SortFilter(le, p, s);
    var own := Filter(p, s);
    forall i, j | 0 <= i < j < |own| ensures le(own[i], own[j]) {
      FilterMember(p, s, own[i]);
      FilterMember(p, s, own[j]);
    }
    SortOfSorted(le, own);
  }

  lemma {:induction false} InsertMember<T(!new)>(le: (T, T) -> bool, x: T, s: seq<T>, y: T)
    ensures y in Insert(le, x, s) <==> y == x || y in s
  {
    InsertBag(le, x, s);
    assert y in Insert(le, x, s) <==> y in multiset(Insert(le, x, s));
    assert y in s <==> y in multiset(s);
  }

  /** An insertion keeps the order of what was there and puts the new element before its equals. */
  lemma {:induction false} InsertPlaces<T(!new)>(le: (T, T) -> bool, x: T, s: seq<T>, a: T, b: T)
    requires TotalPreorder(le) && Sorted(le, s) && x !in s && a != b
    ensures Precedes(Insert(le, x, s), a, b) <==>
            if a == x then b in s && le(x, b) else if b == x then a in s && !le(x, a) else Precedes(s, a, b)
  {
    if s == [] || le(x, s[0]) {
      PrecedesCons(x, s, a, b);
      PrecedesMember(s, a, b);
      forall y | y in s ensures le(x, y) {
        var n :| 0 <= n < |s| && s[n] == y;
        assert n > 0 ==> le(s[0], s[n]);
      }
    } else {
      var h, rest := s[0], s[1..];
      assert s == [h] + rest;
      InsertPlaces(le, x, rest, a, b);
      PrecedesCons(h, rest, a, b);
      PrecedesCons(h, Insert(le, x, rest), a, b);
      PrecedesMember(Insert(le, x, rest), a, b);
      InsertMember(le, x, rest, b);
      PrecedesMember(rest, a, b);
    }
  }

  /** Stability, element by element: smaller first, and of equals the one given first. */
  lemma {:induction false} SortPlaces<T(!new)>(le: (T, T) -> bool, s: seq<T>, a: T, b: T)
    requires TotalPreorder(le) && Distinct(s) && a != b && a in s && b in s
    ensures Precedes(Sort(le, s), a, b) <==> !le(b, a) || (le(a, b) && Precedes(s, a, b))
  {
    var h, rest := s[0], s[1..];
    assert s == [h] + rest;
    SortSorts(le, rest);
    SortMember(le, rest, h);
    SortMember(le, rest, a);
    SortMember(le, rest, b);
    InsertPlaces(le, h, Sort(le, rest), a, b);
    PrecedesCons(h, rest, a, b);
    PrecedesMember(rest, a, b);
    if a != h && b != h { SortPlaces(le, rest, a, b); }
  }

  lemma {:induction false} DistinctCounts<T(!new)>(s: seq<T>)
    ensures Distinct(s) <==> forall x :: multiset(s)[x] <= 1
  {
    if s == [] {
    } else {
      DistinctCounts(s[1..]);
      assert s == [s[0]] + s[1..];
      assert multiset(s) == multiset{s[0]} + multiset(s[1..]);
      if s[0] in s[1..] {
        var j :| 0 <= j < |s[1..]| && s[1..][j] == s[0];
        assert s[0] == s[j + 1] && multiset(s)[s[0]] > 1;
      } else {
        assert forall x :: multiset(s)[x] == if x == s[0] then 1 else multiset(s[1..])[x];
        assert forall j :: 0 < j < |s| ==> s[j] == s[1..][j - 1];
        assert Distinct(s) <==> Distinct(s[1..]);
        assert s[0] !in multiset(s[1..]);
      }
    }
  }

  lemma SortKeepsDistinct<T(!new)>(le: (T, T) -> bool, s: seq<T>)
    requires TotalPreorder(le) && Distinct(s)
    ensures Distinct(Sort(le, s))
  {
    SortSorts(le, s);
    DistinctCounts(s);
    DistinctCounts(Sort(le, s));
  }

  predicate StringLe(a: string, b: string) {
    a == "" || (b != "" && (a[0] < b[0] || (a[0] == b[0] && StringLe(a[1..], b[1..]))))
  }

  predicate StringLt(a: string, b: string) {
    StringLe(a, b) && a != b
  }

  lemma {:induction false} StringLeTotal(a: string, b: string)
    ensures StringLe(a, b) || StringLe(b, a)
    ensures StringLe(a, b) && StringLe(b, a) ==> a == b
  {
    if a == "" || b == "" || a[0] != b[0] {
    } else {
      StringLeTotal(a[1..], b[1..]);
      assert a == [a[0]] + a[1..] && b == [b[0]] + b[1..];
    }
  }

  lemma {:induction false} StringLeTransitive(a: string, b: string, c: string)
    requires StringLe(a, b) && StringLe(b, c)
    ensures StringLe(a, c)
  {
    if a == "" || a[0] != b[0] || b[0] != c[0] {
    } else {
      StringLeTransitive(a[1..], b[1..], c[1..]);
    }
  }

  /** The first place where two strings differ. */
  ghost predicate SmallerAt(a: string, b: string, k: nat) {
    k < |a| && k < |b| && a[..k] == b[..k] && a[k] < b[k]
  }

  lemma SmallerAtTail(a: string, b: string, k: nat)
    requires a != "" && b != "" && a[0] == b[0]
    ensures SmallerAt(a, b, k + 1) <==> SmallerAt(a[1..], b[1..], k)
  {
    if k < |a| - 1 && k < |b| - 1 {
      assert a[..k + 1] == [a[0]] + a[1..][..k] && b[..k + 1] == [b[0]] + b[1..][..k];
      assert a[..k + 1][1..] == a[1..][..k] && b[..k + 1][1..] == b[1..][..k];
    }
  }

  lemma HeadDiffers(a: string, b: string)
    requires a != "" && b != "" && a[0] != b[0]
    ensures !(a <= b) && ((exists k: nat :: SmallerAt(a, b, k)) <==> a[0] < b[0])
  {
    assert SmallerAt(a, b, 0) <==> a[0] < b[0];
    forall k: nat | 0 < k <= |a| && k <= |b| ensures a[..k] != b[..k] {
      assert a[..k][0] == a[0] && b[..k][0] == b[0];
    }
  }

  lemma HeadSame(a: string, b: string)
    requires a != "" && b != "" && a[0] == b[0]
    ensures a <= b <==> a[1..] <= b[1..]
    ensures (exists k: nat :: SmallerAt(a, b, k)) <==> exists k: nat :: SmallerAt(a[1..], b[1..], k)
  {
    assert a == [a[0]] + a[1..] && b == [b[0]] + b[1..];
    if k: nat :| SmallerAt(a, b, k) {
      assert k > 0;
      SmallerAtTail(a, b, k - 1);
    }
    if k: nat :| SmallerAt(a[1..], b[1..], k) { SmallerAtTail(a, b, k); }
  }

  /** The order is the dictionary's: a beginning comes first, and else the first difference decides. */
  lemma {:induction false} StringLeIff(a: string, b: string)
    ensures StringLe(a, b) <==> a <= b || exists k: nat :: SmallerAt(a, b, k)
  {
    if a == "" || b == "" {
    } else if a[0] != b[0] {
      HeadDiffers(a, b);
    } else {
      HeadSame(a, b);
      StringLeIff(a[1..], b[1..]);
    }
  }

  lemma StringLeIsTotalPreorder()
    ensures TotalPreorder(StringLe)
    ensures forall a, b :: StringLe(a, b) && StringLe(b, a) ==> a == b
  {
    forall a, b ensures StringLe(a, b) || StringLe(b, a)
                ensures StringLe(a, b) && StringLe(b, a) ==> a == b {
      StringLeTotal(a, b);
    }
    forall a, b, c | StringLe(a, b) && StringLe(b, c) ensures StringLe(a, c) {
      StringLeTransitive(a, b, c);
    }
  }
}
