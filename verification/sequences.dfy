/** Sequence vocabulary shared by all modules: filtering, slicing as the source languages do it,
    first-occurrence deduplication and sums. */
module Sequences {

  /** The order-preserving sublist of the elements satisfying `p` (a Python comprehension's `if`). */
  function Filter<T>(p: T -> bool, s: seq<T>): seq<T> {
    if s == [] then [] else if p(s[0]) then [s[0]] + Filter(p, s[1..]) else Filter(p, s[1..])
  }

  lemma {:induction false} FilterConcat<T>(p: T -> bool, a: seq<T>, b: seq<T>)
    ensures Filter(p, a + b) == Filter(p, a) + Filter(p, b)
  {
    if a == [] {
      assert a + b == b;
    } else {
      assert (a + b)[1..] == a[1..] + b;
      FilterConcat(p, a[1..], b);
    }
  }

  lemma FilterAtMostOne<T>(p: T -> bool, s: seq<T>)
    ensures |s| <= 1 ==> Filter(p, s) == if s != [] && p(s[0]) then s else []
  {
    if |s| == 1 { assert s[1..] == [] && s == [s[0]]; }
  }

  lemma FilterSnoc<T>(p: T -> bool, s: seq<T>, x: T)
    ensures Filter(p, s + [x]) == if p(x) then Filter(p, s) + [x] else Filter(p, s)
  {
    FilterConcat(p, s, [x]);
    FilterAtMostOne(p, [x]);
  }

  lemma FilterPair<T>(p: T -> bool, a: T, b: T)
    ensures Filter(p, [a]) == if p(a) then [a] else []
    ensures Filter(p, [a, b]) == (if p(a) then [a] else []) + (if p(b) then [b] else [])
  {
    FilterAtMostOne(p, [a]);
    FilterSnoc(p, [a], b);
    assert [a] + [b] == [a, b];
  }

  lemma {:induction false} FilterMember<T>(p: T -> bool, s: seq<T>, x: T)
    ensures x in Filter(p, s) <==> x in s && p(x)
  {
    if s == [] {
    } else {
      FilterMember(p, s[1..], x);
      assert s == [s[0]] + s[1..];
    }
  }

  lemma {:induction false} FilterLength<T>(p: T -> bool, s: seq<T>)
    ensures |Filter(p, s)| <= |s|
  {
    if s == [] {
    } else {
      FilterLength(p, s[1..]);
    }
  }

  /** Keeping everything is the identity; keeping nothing is empty. */
  lemma {:induction false} FilterAllOrNone<T>(p: T -> bool, s: seq<T>)
    ensures (forall x :: x in s ==> p(x)) ==> Filter(p, s) == s
    ensures (forall x :: x in s ==> !p(x)) ==> Filter(p, s) == []
  {
    if s == [] {
    } else {
      FilterAllOrNone(p, s[1..]);
      assert s == [s[0]] + s[1..];
      assert s[0] in s;
      assert forall x :: x in s[1..] ==> x in s;
    }
  }

  lemma {:induction false} FilterAgree<T>(p: T -> bool, q: T -> bool, s: seq<T>)
    requires forall x :: x in s ==> p(x) == q(x)
    ensures Filter(p, s) == Filter(q, s)
  {
    if s == [] {
    } else {
      assert forall x :: x in s[1..] ==> x in s;
      assert s[0] in s;
      FilterAgree(p, q, s[1..]);
    }
  }

  lemma {:induction false} FilterTwice<T>(p: T -> bool, q: T -> bool, r: T -> bool, s: seq<T>)
    requires forall x :: x in s ==> r(x) == (p(x) && q(x))
    ensures Filter(p, Filter(q, s)) == Filter(r, s)
  {
    if s == [] {
    } else {
      assert s[0] in s;
      assert forall x :: x in s[1..] ==> x in s;
      FilterTwice(p, q, r, s[1..]);
      FilterConcat(p, if q(s[0]) then [s[0]] else [], Filter(q, s[1..]));
    }
  }

  ghost predicate Distinct<T(!new)>(s: seq<T>) {
    forall i, j :: 0 <= i < j < |s| ==> s[i] != s[j]
  }

  lemma {:induction false} FilterDistinct<T(!new)>(p: T -> bool, s: seq<T>)
    requires Distinct(s)
    ensures Distinct(Filter(p, s))
  {
    if s == [] {
    } else {
      assert Distinct(s[1..]);
      FilterDistinct(p, s[1..]);
      FilterMember(p, s[1..], s[0]);
    }
  }

  /** Position `k` holds the last, or the first, element satisfying `p`. */
  ghost predicate LastAt<T>(p: T -> bool, s: seq<T>, k: int) {
    0 <= k < |s| && p(s[k]) && forall l :: k < l < |s| ==> !p(s[l])
  }
  ghost predicate FirstAt<T>(p: T -> bool, s: seq<T>, k: int) {
    0 <= k < |s| && p(s[k]) && forall l :: 0 <= l < k ==> !p(s[l])
  }

  lemma LastAtSnoc<T>(p: T -> bool, s: seq<T>, x: T)
    ensures forall k :: LastAt(p, s + [x], k) <==> if p(x) then k == |s| else LastAt(p, s, k)
  {
    var t := s + [x];
    forall k ensures LastAt(p, t, k) <==> if p(x) then k == |s| else LastAt(p, s, k) {
      assert t[|s|] == x;
      if LastAt(p, t, k) && k < |s| {
        assert !p(x);
        forall l | k < l < |s| ensures !p(s[l]) { assert t[l] == s[l]; }
      }
      if LastAt(p, s, k) && !p(x) {
        forall l | k < l < |t| ensures !p(t[l]) { assert l < |s| ==> t[l] == s[l]; }
      }
    }
  }

  /** The last element satisfying `p` ends the selection, and the first begins it. */
  lemma FilterEnds<T>(p: T -> bool, s: seq<T>, k: nat)
    requires k < |s| && p(s[k])
    ensures Filter(p, s) != []
    ensures LastAt(p, s, k) ==> Filter(p, s)[|Filter(p, s)| - 1] == s[k]
    ensures FirstAt(p, s, k) ==> Filter(p, s)[0] == s[k]
  {
    var front, back := s[..k], s[k + 1..];
    assert s == (front + [s[k]]) + back;
    FilterConcat(p, front + [s[k]], back);
    FilterSnoc(p, front, s[k]);
    FilterAllOrNone(p, back);
    FilterAllOrNone(p, front);
  }

  /** A selection has as many elements as positions satisfy `p`. */
  lemma {:induction false} FilterCount<T(!new)>(p: T -> bool, s: seq<T>, which: set<int>)
    requires which == set k | 0 <= k < |s| && p(s[k])
    ensures |Filter(p, s)| == |which|
  {
    if s == [] {
    } else {
      var n := |s| - 1;
      var front, before := s[..n], set k | 0 <= k < n && p(s[..n][k]);
      assert s == front + [s[n]];
      FilterSnoc(p, front, s[n]);
      FilterCount(p, front, before);
      assert which == if p(s[n]) then before + {n} else before;
    }
  }

  /** `s[-n:]` in Python and `s.slice(-n)` in JavaScript, for every integer `n`: `-0` is `0`, so
      nothing is cut for `n == 0`, and a negative `n` drops from the front. */
  function LastN<T>(s: seq<T>, n: int): seq<T> {
    if n > |s| then s
    else if n > 0 then s[|s| - n..]
    else if -n <= |s| then s[-n..]
    else []
  }

  function Keys<T, K>(key: T -> K, s: seq<T>): seq<K> {
    seq(|s|, i requires 0 <= i < |s| => key(s[i]))
  }

  /** Keeps, of the elements sharing a key, the first. */
  function DedupBy<T, K(==)>(key: T -> K, s: seq<T>): seq<T> {
    if s == [] then [] else
      var front := DedupBy(key, s[..|s| - 1]);
      var last := s[|s| - 1];
      if key(last) in Keys(key, front) then front else front + [last]
  }

  lemma DedupSnoc<T, K>(key: T -> K, s: seq<T>, x: T)
    ensures DedupBy(key, s + [x]) ==
            if key(x) in Keys(key, DedupBy(key, s)) then DedupBy(key, s) else DedupBy(key, s) + [x]
  {
    assert (s + [x])[..|s + [x]| - 1] == s;
  }

  lemma {:induction false} DedupSame<T(!new), K, L>(key: T -> K, key': T -> L, s: seq<T>)
    requires forall a, b :: a in s && b in s ==> (key(a) == key(b) <==> key'(a) == key'(b))
    ensures DedupBy(key, s) == DedupBy(key', s)
    ensures forall x :: x in DedupBy(key, s) ==> x in s
  {
    if s == [] {
    } else {
      var front, last := s[..|s| - 1], s[|s| - 1];
      assert s == front + [last];
      DedupSame(key, key', front);
      var d := DedupBy(key, front);
      assert forall i :: 0 <= i < |d| ==> d[i] in d && (key(d[i]) == key(last) <==> key'(d[i]) == key'(last));
      assert forall i :: 0 <= i < |d| ==> Keys(key, d)[i] == key(d[i]) && Keys(key', d)[i] == key'(d[i]);
    }
  }

  lemma KeysSnoc<T, K>(key: T -> K, s: seq<T>, x: T)
    ensures Keys(key, s + [x]) == Keys(key, s) + [key(x)]
  {
  }

  lemma KeysMember<T(!new), K>(key: T -> K, s: seq<T>, k: K)
    ensures k in Keys(key, s) <==> exists x :: x in s && key(x) == k
  {
    if k in Keys(key, s) {
      var i :| 0 <= i < |s| && Keys(key, s)[i] == k;
      assert s[i] in s && key(s[i]) == k;
    }
    if x :| x in s && key(x) == k {
      var i :| 0 <= i < |s| && s[i] == x;
      assert Keys(key, s)[i] == k;
    }
  }

  /** `x` stands in `s` with no element of its key before it. */
  ghost predicate FirstOfKey<T(!new), K(!new)>(key: T -> K, s: seq<T>, x: T) {
    exists i :: 0 <= i < |s| && s[i] == x && key(x) !in Keys(key, s[..i])
  }

  lemma FirstOfKeySnoc<T(!new), K(!new)>(key: T -> K, front: seq<T>, last: T, x: T)
    ensures FirstOfKey(key, front + [last], x) <==>
            FirstOfKey(key, front, x) || (x == last && key(last) !in Keys(key, front))
  {
    var s := front + [last];
    if i :| 0 <= i < |front| && front[i] == x && key(x) !in Keys(key, front[..i]) {
      assert front[..i] == s[..i] && s[i] == x;
    }
    if x == last && key(last) !in Keys(key, front) { assert s[..|front|] == front && s[|front|] == x; }
    if i :| 0 <= i < |s| && s[i] == x && key(x) !in Keys(key, s[..i]) {
      if i < |front| {
        assert front[..i] == s[..i] && front[i] == x;
      } else {
        assert s[..i] == front;
      }
    }
  }

  lemma {:induction false} DedupKeys<T(!new), K(!new)>(key: T -> K, s: seq<T>)
    ensures Distinct(Keys(key, DedupBy(key, s)))
    ensures forall k :: k in Keys(key, s) <==> k in Keys(key, DedupBy(key, s))
  {
    if s == [] {
    } else {
      var front, last := s[..|s| - 1], s[|s| - 1];
      assert s == front + [last];
      DedupKeys(key, front);
      DedupSnoc(key, front, last);
      KeysSnoc(key, front, last);
      KeysSnoc(key, DedupBy(key, front), last);
    }
  }

  /** What first-occurrence deduplication means: no key twice, no key lost, nothing invented, and
      each kept element is the first of its key. */
  lemma {:induction false} DedupMeaning<T(!new), K(!new)>(key: T -> K, s: seq<T>)
    ensures Distinct(Keys(key, DedupBy(key, s)))
    ensures forall k :: k in Keys(key, s) <==> k in Keys(key, DedupBy(key, s))
    ensures forall x :: x in DedupBy(key, s) <==> FirstOfKey(key, s, x)
  {
    DedupKeys(key, s);
    if s == [] {
    } else {
      var front, last := s[..|s| - 1], s[|s| - 1];
      assert s == front + [last];
      DedupMeaning(key, front);
      DedupSnoc(key, front, last);
      forall x ensures x in DedupBy(key, s) <==> FirstOfKey(key, s, x) { FirstOfKeySnoc(key, front, last, x); }
    }
  }

  /** `a` stands somewhere before `b`. */
  ghost predicate Precedes<T(!new)>(s: seq<T>, a: T, b: T) {
    exists m, n :: 0 <= m < n < |s| && s[m] == a && s[n] == b
  }

  lemma PrecedesCons<T(!new)>(x: T, s: seq<T>, a: T, b: T)
    ensures Precedes([x] + s, a, b) <==> Precedes(s, a, b) || (x == a && b in s)
  {
    var t := [x] + s;
    if m, n :| 0 <= m < n < |t| && t[m] == a && t[n] == b {
      if m > 0 { assert s[m - 1] == a && s[n - 1] == b; } else { assert s[n - 1] == b; }
    }
    if m, n :| 0 <= m < n < |s| && s[m] == a && s[n] == b { assert t[m + 1] == a && t[n + 1] == b; }
    if x == a && b in s {
      var n :| 0 <= n < |s| && s[n] == b;
      assert t[0] == a && t[n + 1] == b;
    }
  }

  lemma PrecedesMember<T(!new)>(s: seq<T>, a: T, b: T)
    ensures Precedes(s, a, b) ==> a in s && b in s
  {
  }

  lemma {:induction false} FilterPrecedes<T(!new)>(p: T -> bool, s: seq<T>, a: T, b: T)
    ensures Precedes(Filter(p, s), a, b) <==> Precedes(s, a, b) && p(a) && p(b)
  {
    if s == [] {
    } else {
      var x, rest := s[0], s[1..];
      assert s == [x] + rest;
      FilterPrecedes(p, rest, a, b);
      PrecedesCons(x, rest, a, b);
      if p(x) { PrecedesCons(x, Filter(p, rest), a, b); }
      FilterMember(p, rest, b);
      PrecedesMember(rest, a, b);
    }
  }

  lemma DistinctPrecedes<T(!new)>(s: seq<T>, m: nat, n: nat)
    requires Distinct(s) && m < |s| && n < |s|
    ensures Precedes(s, s[m], s[n]) <==> m < n
  {
  }

  lemma PrecedesSnoc<T(!new)>(s: seq<T>, x: T, a: T, b: T)
    ensures Precedes(s + [x], a, b) <==> Precedes(s, a, b) || (a in s && x == b)
  {
    var t := s + [x];
    if m, n :| 0 <= m < n < |t| && t[m] == a && t[n] == b { assert s[m] == a; }
    if m, n :| 0 <= m < n < |s| && s[m] == a && s[n] == b { assert t[m] == a && t[n] == b; }
    if a in s && x == b {
      var m :| 0 <= m < |s| && s[m] == a;
      assert t[m] == a && t[|s|] == b;
    }
  }

  /** What is kept of a deduplication keeps its order. */
  lemma {:induction false} DedupPrecedes<T(!new), K(!new)>(key: T -> K, s: seq<T>, a: T, b: T)
    requires Precedes(DedupBy(key, s), a, b)
    ensures Precedes(s, a, b)
  {
    var front, last := s[..|s| - 1], s[|s| - 1];
    assert s == front + [last];
    DedupSnoc(key, front, last);
    PrecedesSnoc(front, last, a, b);
    PrecedesSnoc(DedupBy(key, front), last, a, b);
    if Precedes(DedupBy(key, front), a, b) {
      DedupPrecedes(key, front, a, b);
    } else {
      DedupMeaning(key, front);
      var n :| 0 <= n < |front| && front[n] == a;
    }
  }

  lemma {:induction false} DistinctSize<T(!new)>(s: seq<T>)
    requires Distinct(s)
    ensures |set x | x in s| == |s|
  {
    if s == [] {
    } else {
      assert Distinct(s[1..]);
      DistinctSize(s[1..]);
      assert s == [s[0]] + s[1..];
      assert (set x | x in s) == (set x | x in s[1..]) + {s[0]};
    }
  }

  lemma InSuffix<T(!new)>(s: seq<T>, from: nat, k: nat)
    requires Distinct(s) && from <= |s| && k < |s|
    ensures s[k] in s[from..] <==> k >= from
  {
    if k >= from { assert s[from..][k - from] == s[k]; }
  }

  lemma StandAfter<T(!new)>(s: seq<T>, k: nat)
    requires Distinct(s) && k < |s|
    ensures |set y | y in s && Precedes(s, s[k], y)| == |s| - k - 1
  {
    var after := s[k + 1..];
    forall y ensures y in after <==> y in s && Precedes(s, s[k], y) {
      if y in s {
        var m :| 0 <= m < |s| && s[m] == y;
        DistinctPrecedes(s, k, m);
        if m > k { assert after[m - k - 1] == y; }
      }
    }
    assert (set y | y in s && Precedes(s, s[k], y)) == (set y | y in after);
    DistinctSize(after);
  }

  lemma StandBefore<T(!new)>(s: seq<T>, k: nat)
    requires Distinct(s) && k < |s|
    ensures |set y | y in s && Precedes(s, y, s[k])| == k
  {
    var before := s[..k];
    forall y ensures y in before <==> y in s && Precedes(s, y, s[k]) {
      if y in s {
        var m :| 0 <= m < |s| && s[m] == y;
        DistinctPrecedes(s, m, k);
        if m < k { assert before[m] == y; }
      }
    }
    assert (set y | y in s && Precedes(s, y, s[k])) == (set y | y in before);
    DistinctSize(before);
  }

  /** The slice as a rank test: for a positive `n`, few elements stand after; else, many before. */
  lemma LastNIsRank<T(!new)>(s: seq<T>, n: int, x: T)
    requires Distinct(s) && x in s
    ensures n > 0 ==> (x in LastN(s, n) <==> |set y | y in s && Precedes(s, x, y)| < n)
    ensures n <= 0 ==> (x in LastN(s, n) <==> |set y | y in s && Precedes(s, y, x)| >= -n)
  {
    var k :| 0 <= k < |s| && s[k] == x;
    StandAfter(s, k);
    StandBefore(s, k);
    InSuffix(s, |s| - |LastN(s, n)|, k);
  }

  lemma LastNOrdered<T(!new)>(s: seq<T>, n: int, a: nat, b: nat)
    requires Distinct(s) && a < b < |LastN(s, n)|
    ensures var r := LastN(s, n);
            r[a] in s && r[b] in s && r[a] != r[b] && Precedes(s, r[a], r[b])
  {
    var r := LastN(s, n);
    var from := |s| - |r|;
    assert r == s[from..];
    DistinctPrecedes(s, from + a, from + b);
  }

  /** A sum over a list, as the source's running totals compute it. */
  function SumReal(s: seq<real>): real {
    if s == [] then 0.0 else s[0] + SumReal(s[1..])
  }

  lemma {:induction false} SumRealConcat(a: seq<real>, b: seq<real>)
    ensures SumReal(a + b) == SumReal(a) + SumReal(b)
  {
    if a == [] { assert a + b == b; } else { assert (a + b)[1..] == a[1..] + b; SumRealConcat(a[1..], b); }
  }
}
