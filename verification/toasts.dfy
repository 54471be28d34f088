/** The toast list: `upsertToast` of dashboard/src/components/shared.tsx. */
module Toasts {
  import opened Sequences

  datatype Toast = Toast(id: string, key: string, message: string)

  function KeyNot(k: string): Toast -> bool { (t: Toast) => t.key != k }
  function KeyOf(): Toast -> string { (t: Toast) => t.key }

  function Upsert(current: seq<Toast>, next: Toast, limit: int := 5): seq<Toast> {
    LastN(Filter(KeyNot(next.key), current) + [next], limit)
  }

  /** The list after pushing a whole history, truncating at every push. */
  function Shown(history: seq<Toast>, limit: int := 5): seq<Toast> {
    if history == [] then [] else Upsert(Shown(history[..|history| - 1], limit), history[|history| - 1], limit)
  }

  /** The reference: of the whole history, each key's latest push. */
  function Latest(history: seq<Toast>): seq<Toast> {
    if history == [] then []
    else (if history[0].key in Keys(KeyOf(), history[1..]) then [] else [history[0]]) + Latest(history[1..])
  }

  lemma LatestCons(t: Toast, rest: seq<Toast>)
    ensures Latest([t] + rest) == if t.key in Keys(KeyOf(), rest) then Latest(rest) else [t] + Latest(rest)
  {
    assert ([t] + rest)[1..] == rest;
    assert [] + Latest(rest) == Latest(rest);
  }

  lemma FilterCons(k: string, t: Toast, rest: seq<Toast>)
    ensures Filter(KeyNot(k), [t] + rest) ==
            if t.key == k then Filter(KeyNot(k), rest) else [t] + Filter(KeyNot(k), rest)
  {
    assert ([t] + rest)[1..] == rest;
  }

  /** One older toast `t` before a history whose latest pushes are known. */
  lemma LatestBefore(t: Toast, rest: seq<Toast>, x: Toast)
    requires Latest(rest + [x]) == Filter(KeyNot(x.key), Latest(rest)) + [x]
    ensures Latest([t] + (rest + [x])) == Filter(KeyNot(x.key), Latest([t] + rest)) + [x]
  {
    var kept := Filter(KeyNot(x.key), Latest(rest));
    KeysSnoc(KeyOf(), rest, x);
    LatestCons(t, rest + [x]);
    LatestCons(t, rest);
    FilterCons(x.key, t, Latest(rest));
    assert [t] + (kept + [x]) == ([t] + kept) + [x];
  }

  lemma {:induction false} LatestSnoc(h: seq<Toast>, x: Toast)
    ensures Latest(h + [x]) == Filter(KeyNot(x.key), Latest(h)) + [x]
  {
    if h == [] {
      LatestCons(x, []);
      assert [] + [x] == [x] + [];
    } else {
      var t, rest := h[0], h[1..];
      assert h == [t] + rest && h + [x] == [t] + (rest + [x]);
      LatestSnoc(rest, x);
      LatestBefore(t, rest, x);
    }
  }

  lemma {:induction false} LatestKeys(h: seq<Toast>)
    ensures Distinct(Keys(KeyOf(), Latest(h)))
    ensures forall t :: t in Latest(h) ==> t.key in Keys(KeyOf(), h)
  {
    if h == [] {
    } else {
      LatestKeys(h[1..]);
      var rest := Latest(h[1..]);
      assert h == [h[0]] + h[1..];
      assert Keys(KeyOf(), h) == [h[0].key] + Keys(KeyOf(), h[1..]);
      if h[0].key !in Keys(KeyOf(), h[1..]) {
        assert Keys(KeyOf(), [h[0]] + rest) == [h[0].key] + Keys(KeyOf(), rest);
        assert Latest(h) == [h[0]] + rest;
        forall k | 0 <= k < |rest| ensures rest[k].key != h[0].key { assert rest[k] in rest; }
      } else {
        assert Latest(h) == rest;
      }
    }
  }

  function KeyIs(k: string): Toast -> bool { (t: Toast) => t.key == k }

  /** `t` is the latest push of its key, at position `p`. */
  ghost predicate LatestAt(h: seq<Toast>, t: Toast, p: int) { LastAt(KeyIs(t.key), h, p) && h[p] == t }

  lemma LatestAtSnoc(h: seq<Toast>, x: Toast, t: Toast, p: int)
    ensures LatestAt(h + [x], t, p) <==> if t.key == x.key then t == x && p == |h| else LatestAt(h, t, p)
  {
    LastAtSnoc(KeyIs(t.key), h, x);
  }

  /** The reference holds exactly the latest push of each key. */
  lemma {:induction false} LatestMember(h: seq<Toast>, t: Toast)
    ensures t in Latest(h) <==> exists p :: LatestAt(h, t, p)
  {
    if h == [] {
    } else {
      var front, x := h[..|h| - 1], h[|h| - 1];
      assert h == front + [x];
      LatestMember(front, t);
      LatestSnoc(front, x);
      FilterMember(KeyNot(x.key), Latest(front), t);
      forall p ensures LatestAt(h, t, p) <==> if t.key == x.key then t == x && p == |front| else LatestAt(front, t, p) {
        LatestAtSnoc(front, x, t, p);
      }
      if t == x { assert LatestAt(h, t, |front|); }
    }
  }

  /** In the order of these pushes. */
  lemma {:induction false} LatestInOrder(h: seq<Toast>, a: Toast, b: Toast, p: int, q: int)
    requires Precedes(Latest(h), a, b) && LatestAt(h, a, p) && LatestAt(h, b, q)
    ensures p < q
  {
    var front, x := h[..|h| - 1], h[|h| - 1];
    var kept := Filter(KeyNot(x.key), Latest(front));
    assert h == front + [x];
    LatestSnoc(front, x);
    LatestAtSnoc(front, x, a, p);
    LatestAtSnoc(front, x, b, q);
    PrecedesSnoc(kept, x, a, b);
    if Precedes(kept, a, b) {
      FilterPrecedes(KeyNot(x.key), Latest(front), a, b);
      LatestInOrder(front, a, b, p, q);
    } else {
      FilterMember(KeyNot(x.key), Latest(front), a);
    }
  }

  /** With distinct keys, removing a key removes at most one toast. */
  lemma {:induction false} RemovesOne(s: seq<Toast>, k: string)
    requires Distinct(Keys(KeyOf(), s))
    ensures |Filter(KeyNot(k), s)| >= |s| - 1
  {
    if s == [] {
    } else {
      assert forall i :: 0 <= i < |s[1..]| ==> Keys(KeyOf(), s[1..])[i] == Keys(KeyOf(), s)[i + 1];
      RemovesOne(s[1..], k);
      if s[0].key == k {
        forall t | t in s[1..] ensures KeyNot(k)(t) {
          var i :| 0 <= i < |s[1..]| && s[1..][i] == t;
          assert Keys(KeyOf(), s)[i + 1] == t.key && Keys(KeyOf(), s)[0] == k;
        }
        FilterAllOrNone(KeyNot(k), s[1..]);
      }
    }
  }

  lemma SuffixKeys(all: seq<Toast>, n: nat)
    requires n <= |all| && Distinct(Keys(KeyOf(), all))
    ensures Distinct(Keys(KeyOf(), all[n..]))
  {
    assert forall i :: 0 <= i < |all| - n ==> Keys(KeyOf(), all[n..])[i] == Keys(KeyOf(), all)[n + i];
  }

  lemma SuffixOfConcat<T>(a: seq<T>, b: seq<T>, n: nat)
    requires 0 < n <= |b|
    ensures LastN(a + b, n) == LastN(b, n)
  {
  }

  /** What truncation dropped before a push would be dropped after it. */
  lemma TruncateThenPush(all: seq<Toast>, x: Toast, limit: nat)
    requires Distinct(Keys(KeyOf(), all))
    ensures Upsert(LastN(all, limit), x, limit) == Upsert(all, x, limit)
  {
    if 0 < limit < |all| {
      var a, b := all[..|all| - limit], all[|all| - limit..];
      assert all == a + b;
      FilterConcat(KeyNot(x.key), a, b);
      SuffixKeys(all, |all| - limit);
      RemovesOne(b, x.key);
      var fa, fb := Filter(KeyNot(x.key), a), Filter(KeyNot(x.key), b);
      assert fa + fb + [x] == fa + (fb + [x]);
      SuffixOfConcat(fa, fb + [x], limit);
    }
  }

  /** Truncating early never changes the outcome: the list is always the last `limit` of each
      key's latest push, over the whole unbounded history. */
  lemma {:induction false} ShownIsLatest(history: seq<Toast>, limit: int)
    requires limit >= 0
    ensures Shown(history, limit) == LastN(Latest(history), limit)
  {
    if history == [] {
    } else {
      var front, x := history[..|history| - 1], history[|history| - 1];
      assert history == front + [x];
      ShownIsLatest(front, limit);
      LatestSnoc(front, x);
      LatestKeys(front);
      TruncateThenPush(Latest(front), x, limit);
    }
  }

  /** A negative limit makes `slice` drop from the front, and with it every push. */
  lemma {:induction false} NegativeLimitShowsNothing(history: seq<Toast>, limit: int)
    requires limit < 0
    ensures Shown(history, limit) == []
  {
    if history == [] {
    } else {
      NegativeLimitShowsNothing(history[..|history| - 1], limit);
    }
  }

  /** So early truncation is harmless exactly for limits of at least 0, or as long as a negative
      limit would have cut all keys anyway. */
  lemma ShownIsLatestIff(history: seq<Toast>, limit: int)
    ensures Shown(history, limit) == LastN(Latest(history), limit) <==> limit >= 0 || |Latest(history)| <= -limit
  {
    if limit >= 0 { ShownIsLatest(history, limit); } else { NegativeLimitShowsNothing(history, limit); }
  }

  /** With the default limit the five latest keys are shown. */
  lemma FiveShown(history: seq<Toast>)
    ensures Shown(history) == LastN(Latest(history), 5)
  {
    ShownIsLatest(history, 5);
  }

  lemma ShownSnoc(h: seq<Toast>, x: Toast, limit: int)
    ensures Shown(h + [x], limit) == Upsert(Shown(h, limit), x, limit)
  {
    assert (h + [x])[..|h + [x]| - 1] == h;
  }

  /** A negative limit breaks it: `slice(1)` throws the first toast away at every push. */
  lemma NegativeLimitForgets(a: Toast, b: Toast)
    requires a.key != b.key
    ensures Shown([a, b], -1) == [] && LastN(Latest([a, b]), -1) == [b]
  {
    ShownSnoc([], a, -1);
    ShownSnoc([a], b, -1);
    LatestSnoc([], a);
    LatestSnoc([a], b);
    assert [] + [a] == [a] && [a] + [b] == [a, b];
    FilterAtMostOne(KeyNot(b.key), [a]);
  }
}
