/** The two views of a run: its entry in the list, computed from all instances' events sorted by
    `(ts, instance, seq)`, and its detail, computed from its own log (api/src/agentx_api/state.py). */
module Views {
  import opened Sequences
  import opened Sorting
  import opened Journal
  import opened Reads
  import opened Runs
  import opened Wrappers

  datatype Detail = Missing(id: string) | Detail(run: Summary, timeline: seq<Event>, settlement: Option<Event>)

  const LIMIT := 1000

  function RunDetail(j: seq<Event>, r: string): Detail {
    var events := JournalEvents(ByRun(r), [j], None, LIMIT);
    if events == [] then Missing(r)
    else Detail(Summarize(r, events), events, First(Filter(IsSettlement(), events)))
  }

  lemma SomethingRead(j: seq<Event>, r: string)
    requires Dense(j)
    ensures JournalEvents(ByRun(r), [j], None, LIMIT) == [] <==> forall e :: e in j ==> e.run != Some(r)
  {
    var all := Collected(ByRun(r), [j]);
    CollectedIsSorted(ByRun(r), [j], j);
    if all != [] { assert all[0] in all; }
    if e :| e in j && e.run == Some(r) { assert Offers(ByRun(r), [j], e); }
  }

  /** What the detail shows: it is missing exactly if the journal has no event of the run; else its
      timeline is the run's last 1000 events in order, its summary is theirs, and its settlement is the
      first of theirs. */
  lemma RunDetailMeaning(j: seq<Event>, r: string)
    requires Dense(j)
    ensures RunDetail(j, r) == Missing(r) <==> forall e :: e in j ==> e.run != Some(r)
    ensures RunDetail(j, r).Missing? ==> RunDetail(j, r).id == r
    ensures RunDetail(j, r).Detail? ==>
              var t := RunDetail(j, r).timeline;
              && (forall e :: e in t <==>
                    e in j && e.run == Some(r) && |WantedAfter(ByRun(r), [j], j, None, e)| < 1000)
              && (forall a, b :: 0 <= a < b < |t| ==> t[a] != t[b] && SortsAfter(ByRun(r), [j], t[a], t[b]))
              && RunDetail(j, r).run == Summarize(r, t)
              && ((forall e :: e in t ==> !e.body.RunSettled?) ==> RunDetail(j, r).settlement == None)
              && (forall k :: FirstAt(IsSettlement(), t, k) ==> RunDetail(j, r).settlement == Some(t[k]))
  {
    var t := JournalEvents(ByRun(r), [j], None, LIMIT);
    forall e ensures e in t <==> e in j && e.run == Some(r) && |WantedAfter(ByRun(r), [j], j, None, e)| < 1000 {
      ReadReturns(ByRun(r), [j], j, None, LIMIT, e);
    }
    forall a, b | 0 <= a < b < |t| ensures t[a] != t[b] && SortsAfter(ByRun(r), [j], t[a], t[b]) {
      ReadIsOrdered(ByRun(r), [j], j, None, LIMIT, a, b);
    }
    SomethingRead(j, r);
    FirstIsAt(IsSettlement(), t);
  }

  /** The run `r` stays in the instance `i`. */
  ghost predicate InOneInstance(j: seq<Event>, r: string, i: string) {
    forall e :: e in j && e.run == Some(r) ==> e.inst == i
  }

  /** The run's own events, in append order. */
  function Own(j: seq<Event>, r: string): seq<Event> { Filter(OfRun(r), j) }

  /** Both views read the journal `j`, and the run stays in one instance. */
  ghost predicate Comparable(j: seq<Event>, order: seq<string>, views: seq<seq<Event>>, r: string, i: string) {
    && Dense(j) && Distinct(order) && i in order
    && |views| == |order| && (forall k :: 0 <= k < |views| ==> views[k] == j)
    && InOneInstance(j, r, i)
  }

  /** One instance's events by rising number. */
  ghost predicate Numbered(f: seq<Event>) {
    forall a, b :: 0 <= a < b < |f| ==> f[a].inst == f[b].inst && f[a].seqNo < f[b].seqNo
  }

  ghost predicate TsOrdered(f: seq<Event>) {
    forall a, b :: 0 <= a < b < |f| ==> f[a].ts <= f[b].ts
  }

  lemma {:induction false} FilterNumbered(p: Event -> bool, f: seq<Event>)
    requires Numbered(f)
    ensures Numbered(Filter(p, f))
  {
    if f == [] {
    } else {
      var rest := Filter(p, f[1..]);
      FilterNumbered(p, f[1..]);
      forall b | 0 <= b < |rest| ensures f[0].inst == rest[b].inst && f[0].seqNo < rest[b].seqNo {
        FilterMember(p, f[1..], rest[b]);
      }
    }
  }

  lemma LogIsNumbered(j: seq<Event>, i: string)
    requires Dense(j)
    ensures Numbered(Log(j, i))
  {
    LogNumbered(j, i);
    forall a | 0 <= a < |Log(j, i)| ensures Log(j, i)[a].inst == i { FilterMember(OfInstance(i), j, Log(j, i)[a]); }
  }

  lemma OwnIsNumbered(j: seq<Event>, r: string, i: string)
    requires Dense(j) && InOneInstance(j, r, i)
    ensures Numbered(Own(j, r))
  {
    LogIsNumbered(j, i);
    FilterNumbered(OfRun(r), Log(j, i));
    FilterTwice(OfRun(r), OfInstance(i), OfRun(r), j);
  }

  lemma KeySortedIffTsOrdered(f: seq<Event>)
    requires Numbered(f)
    ensures Sorted(SeqLe, f)
    ensures Sorted(KeyLe, f) <==> TsOrdered(f)
  {
    if Sorted(KeyLe, f) {
      forall a, b | 0 <= a < b < |f| ensures f[a].ts <= f[b].ts { assert KeyLe(f[a], f[b]); }
    }
  }

  // ---- What the two views read ---------------------------------------------------------------

  lemma LogApart(j: seq<Event>, got: seq<Event>, i: string)
    requires Dense(j) && Distinct(got) && forall e :: e in got ==> e.inst != i
    ensures Distinct(got + Log(j, i))
  {
    DenseDistinct(j);
    FilterDistinct(OfInstance(i), j);
    forall a, b | 0 <= a < |got| && 0 <= b < |Log(j, i)| ensures got[a] != Log(j, i)[b] {
      FilterMember(OfInstance(i), j, Log(j, i)[b]);
      assert got[a] in got;
    }
  }

  /** A gather from one journal: every event of the instances read, once. */
  lemma {:induction false} GatheredOnce(order: seq<string>, j: seq<Event>, views: seq<seq<Event>>)
    requires Dense(j) && Distinct(order) && |views| == |order| && (forall k :: 0 <= k < |views| ==> views[k] == j)
    ensures Distinct(Gather(order, views))
    ensures forall e :: e in Gather(order, views) <==> e in j && e.inst in order
  {
    if order == [] {
    } else {
      var front, last := order[..|order| - 1], order[|order| - 1];
      assert order == front + [last];
      GatheredOnce(front, j, views[..|views| - 1]);
      ReadInstanceIsLog(j, last);
      LogApart(j, Gather(front, views[..|views| - 1]), last);
      forall e ensures e in Log(j, last) <==> e in j && e.inst == last { FilterMember(OfInstance(last), j, e); }
    }
  }

  lemma SuffixSorted(s: seq<Event>, n: int)
    requires Sorted(KeyLe, s) && Distinct(s)
    ensures Sorted(KeyLe, LastN(s, n)) && Distinct(LastN(s, n))
  {
  }

  lemma {:induction false} FilterSorted(p: Event -> bool, s: seq<Event>)
    requires Sorted(KeyLe, s)
    ensures Sorted(KeyLe, Filter(p, s))
  {
    if s == [] {
    } else {
      FilterSorted(p, s[1..]);
      var rest := Filter(p, s[1..]);
      forall b | 0 <= b < |rest| ensures KeyLe(s[0], rest[b]) {
        FilterMember(p, s[1..], rest[b]);
        var k :| 0 <= k < |s[1..]| && s[1..][k] == rest[b];
        assert s[k + 1] == rest[b];
      }
    }
  }

  lemma SameFirst(j: seq<Event>, a: seq<Event>, b: seq<Event>)
    requires Dense(j) && (forall e :: e in a ==> e in j) && (forall e :: e in a <==> e in b)
    requires Sorted(KeyLe, a) && Sorted(KeyLe, b) && a != [] && b != []
    ensures a[0] == b[0]
  {
    assert a[0] in a && b[0] in b && a[0] in b && b[0] in a;
    KeyLeIsTotalPreorder();
    var m :| 0 <= m < |b| && b[m] == a[0];
    var n :| 0 <= n < |a| && a[n] == b[0];
    assert m > 0 ==> KeyLe(b[0], b[m]);
    assert n > 0 ==> KeyLe(a[0], a[n]);
    assert KeyLe(a[0], a[0]);
    KeyAntisymmetric(j, a[0], b[0]);
  }

  lemma SomeMember(b: seq<Event>)
    ensures b == [] || exists e :: e in b
  {
    if b != [] { assert b[0] in b; }
  }

  lemma TailMembers(a: seq<Event>)
    requires Distinct(a) && a != []
    ensures forall e :: e in a[1..] <==> e in a && e != a[0]
  {
    assert a == [a[0]] + a[1..];
    forall e | e in a[1..] ensures e != a[0] {
      var k :| 0 <= k < |a[1..]| && a[1..][k] == e;
      assert a[k + 1] == e;
    }
  }

  /** Keys tell events apart, so the same events sort in only one way. */
  lemma {:induction false} SortedOnce(j: seq<Event>, a: seq<Event>, b: seq<Event>)
    requires Dense(j) && (forall e :: e in a ==> e in j) && (forall e :: e in a <==> e in b)
    requires Sorted(KeyLe, a) && Sorted(KeyLe, b) && Distinct(a) && Distinct(b)
    ensures a == b
  {
    if a == [] {
      SomeMember(b);
    } else {
      assert a[0] in a && b != [];
      SameFirst(j, a, b);
      assert a == [a[0]] + a[1..] && b == [b[0]] + b[1..];
      TailMembers(a);
      TailMembers(b);
      SortedOnce(j, a[1..], b[1..]);
    }
  }

  /** The run's part of the list's window, in the order of the global sort. */
  function Listed(got: seq<Event>, r: string): seq<Event> {
    Filter(OfRun(r), Select(Sort(KeyLe, got), None, LIMIT))
  }

  /** The detail's window on the run's own events. */
  function Shown(own: seq<Event>): seq<Event> { Select(own, None, LIMIT) }

  lemma ListedEvents(j: seq<Event>, got: seq<Event>, r: string)
    requires Dense(j) && Distinct(got) && (forall e :: e in got ==> e in j)
    ensures Sorted(KeyLe, Listed(got, r)) && Distinct(Listed(got, r))
    ensures forall e :: e in Listed(got, r) <==> e in got && e.run == Some(r) && |Later(got, e)| < LIMIT
  {
    var window := Select(Sort(KeyLe, got), None, LIMIT);
    SortDistinct(got);
    SuffixSorted(Sort(KeyLe, got), LIMIT);
    FilterSorted(OfRun(r), window);
    FilterDistinct(OfRun(r), window);
    forall e ensures e in Listed(got, r) <==> e in got && e.run == Some(r) && |Later(got, e)| < LIMIT {
      FilterMember(OfRun(r), window, e);
      if e in got { WindowIsRank(j, got, LIMIT, e); }
      if e in window { WindowMember(got, LIMIT, e); }
    }
  }

  lemma OwnGathered(order: seq<string>, j: seq<Event>, views: seq<seq<Event>>, r: string, i: string)
    requires Comparable(j, order, views, r, i)
    ensures var got := Gather(order, views);
            Distinct(got) && (forall e :: e in got ==> e in j)
            && forall e :: e in Own(j, r) <==> e in got && e.run == Some(r)
  {
    GatheredOnce(order, j, views);
    forall e ensures e in Own(j, r) <==> e in Gather(order, views) && e.run == Some(r) { FilterMember(OfRun(r), j, e); }
  }

  lemma DetailReadsOwn(j: seq<Event>, r: string, i: string)
    requires Dense(j) && InOneInstance(j, r, i)
    ensures JournalEvents(ByRun(r), [j], None, LIMIT) == Shown(Own(j, r)) && Numbered(Own(j, r))
  {
    OwnIsNumbered(j, r, i);
    KeySortedIffTsOrdered(Own(j, r));
    SortOfSorted(SeqLe, Own(j, r));
  }

  lemma NumberedDistinct(f: seq<Event>)
    requires Numbered(f)
    ensures Distinct(f) && Numbered(LastN(f, LIMIT)) && forall e :: e in LastN(f, LIMIT) ==> e in f
  {
  }

  /** Of the run's events, both windows hold the same. */
  ghost predicate SameWindow(own: seq<Event>, got: seq<Event>) {
    forall e :: e in own ==> (e in Shown(own) <==> |Later(got, e)| < LIMIT)
  }

  lemma ListedIsShownIff(j: seq<Event>, got: seq<Event>, r: string, own: seq<Event>)
    requires Dense(j) && Distinct(got) && (forall e :: e in got ==> e in j) && Numbered(own)
    requires forall e :: e in own <==> e in got && e.run == Some(r)
    ensures Listed(got, r) == Shown(own) <==> TsOrdered(Shown(own)) && SameWindow(own, got)
  {
    ListedEvents(j, got, r);
    NumberedDistinct(own);
    NumberedDistinct(Shown(own));
    KeySortedIffTsOrdered(Shown(own));
    if TsOrdered(Shown(own)) && SameWindow(own, got) {
      forall e ensures e in Listed(got, r) <==> e in Shown(own) {}
      SortedOnce(j, Listed(got, r), Shown(own));
    }
  }

  /** List and detail compute from the same sequence if and only if the timestamps the detail shows never
      run backwards and the list's window of 1000 holds, of the run's events, the detail's: a rank test.
      Nothing else about other runs and instances matters. */
  lemma ListAndDetailReadTheSame(j: seq<Event>, order: seq<string>, views: seq<seq<Event>>, r: string, i: string)
    requires Comparable(j, order, views, r, i)
    ensures var listed := Filter(OfRun(r), JournalEvents(Everything(order), views, None, LIMIT));
            var shown := JournalEvents(ByRun(r), [j], None, LIMIT);
            && shown == Shown(Own(j, r))
            && (listed == shown <==> TsOrdered(shown) && SameWindow(Own(j, r), Gather(order, views)))
  {
    OwnGathered(order, j, views, r, i);
    DetailReadsOwn(j, r, i);
    ListedIsShownIff(j, Gather(order, views), r, Own(j, r));
  }

  /** No limit cuts any of the run's events. */
  ghost predicate Uncut(j: seq<Event>, order: seq<string>, views: seq<seq<Event>>, r: string)
    requires |views| == |order|
  {
    |Own(j, r)| <= LIMIT && forall e :: e in Own(j, r) ==> |Later(Gather(order, views), e)| < LIMIT
  }

  lemma WhatTheViewsRead(j: seq<Event>, order: seq<string>, views: seq<seq<Event>>, r: string, i: string)
    requires Comparable(j, order, views, r, i) && Uncut(j, order, views, r)
    ensures Numbered(Own(j, r))
    ensures Filter(OfRun(r), JournalEvents(Everything(order), views, None, LIMIT)) == Sort(KeyLe, Own(j, r))
    ensures JournalEvents(ByRun(r), [j], None, LIMIT) == Own(j, r)
  {
    var got, own := Gather(order, views), Own(j, r);
    OwnGathered(order, j, views, r, i);
    DetailReadsOwn(j, r, i);
    ListedEvents(j, got, r);
    NumberedDistinct(own);
    SortDistinct(own);
    SortedOnce(j, Listed(got, r), Sort(KeyLe, own));
  }

  // ---- When the figures agree ----------------------------------------------------------------

  /** The list holds one summary of the run: that of its group. */
  lemma ListEntry(events: seq<Event>, r: string, s: Summary)
    requires exists e :: e in events && e.run == Some(r)
    ensures s in RunList(events, None) && s.runId == r <==> s == Summarize(r, Filter(OfRun(r), events))
  {
    OneSummaryPerRun(events, s);
    SummaryMeaning(r, Filter(OfRun(r), events));
  }

  /** The event of `g` that sorts last. */
  ghost predicate IsTop(t: Event, g: seq<Event>) { t in g && forall b :: b in g ==> KeyLe(b, t) }

  lemma OnlyTop(g: seq<Event>, t: Event, u: Event)
    requires Numbered(g) && IsTop(t, g) && IsTop(u, g)
    ensures t == u
  {
    StringLeIsTotalPreorder();
    assert KeyLe(t, u) && KeyLe(u, t);
    var a :| 0 <= a < |g| && g[a] == t;
    var b :| 0 <= b < |g| && g[b] == u;
  }

  lemma LastOfSortedIsTop(g: seq<Event>)
    requires g != []
    ensures |Sort(KeyLe, g)| == |g| && IsTop(Sort(KeyLe, g)[|g| - 1], g)
  {
    var s := Sort(KeyLe, g);
    KeyLeIsTotalPreorder();
    SortSorts(KeyLe, g);
    SortMember(KeyLe, g, g[0]);
    var t := s[|s| - 1];
    SortMember(KeyLe, g, t);
    forall b | b in g ensures KeyLe(b, t) {
      SortMember(KeyLe, g, b);
      var k :| 0 <= k < |s| && s[k] == b;
      assert k < |s| - 1 || KeyLe(t, t);
    }
  }

  /** Of the events satisfying `p`, the last one in the list's order is the top one. */
  lemma LastInList(p: Event -> bool, f: seq<Event>)
    requires Filter(p, f) != []
    ensures Last(Filter(p, Sort(KeyLe, f))).Some? && IsTop(Last(Filter(p, Sort(KeyLe, f))).value, Filter(p, f))
  {
    KeyLeIsTotalPreorder();
    SortFilter(KeyLe, p, f);
    LastOfSortedIsTop(Filter(p, f));
  }

  /** Of the events satisfying `p`, the list's last is the given one if and only if that is on top. */
  lemma LastInListIff(p: Event -> bool, f: seq<Event>, e: Event)
    requires Numbered(f) && e in Filter(p, f)
    ensures Last(Filter(p, Sort(KeyLe, f))) == Some(e) <==> IsTop(e, Filter(p, f))
  {
    LastInList(p, f);
    FilterNumbered(p, f);
    if IsTop(e, Filter(p, f)) { OnlyTop(Filter(p, f), e, Last(Filter(p, Sort(KeyLe, f))).value); }
  }

  lemma NoneInList(p: Event -> bool, f: seq<Event>)
    requires Filter(p, f) == []
    ensures Filter(p, Sort(KeyLe, f)) == []
  {
    KeyLeIsTotalPreorder();
    SortFilter(KeyLe, p, f);
  }

  /** The latest stamped event of `g` gives the figure the last appended one gives. */
  ghost predicate FigureOnTop<V>(g: seq<Event>, figure: Option<Event> -> V) {
    g == [] || exists t :: IsTop(t, g) && figure(Some(t)) == figure(Last(g))
  }

  lemma TopDecides<V>(g: seq<Event>, top: Event, figure: Option<Event> -> V)
    requires Numbered(g) && g != [] && IsTop(top, g)
    ensures FigureOnTop(g, figure) <==> figure(Some(top)) == figure(Last(g))
  {
    if t :| IsTop(t, g) && figure(Some(t)) == figure(Last(g)) { OnlyTop(g, t, top); }
  }

  /** A figure taken from the last event satisfying `p` is the same in both orders if and only if the
      latest stamped of these events gives it. */
  lemma FigureAgreesIff<V>(p: Event -> bool, figure: Option<Event> -> V, f: seq<Event>)
    requires Numbered(f)
    ensures figure(Last(Filter(p, Sort(KeyLe, f)))) == figure(Last(Filter(p, f))) <==>
            FigureOnTop(Filter(p, f), figure)
  {
    if Filter(p, f) == [] {
      NoneInList(p, f);
    } else {
      LastInList(p, f);
      FilterNumbered(p, f);
      TopDecides(Filter(p, f), Last(Filter(p, Sort(KeyLe, f))).value, figure);
    }
  }

  function Itself(): Option<Event> -> Option<Event> { (e: Option<Event>) => e }

  lemma SettlementsAgreeIff(f: seq<Event>)
    requires Numbered(f)
    ensures var ss := Filter(IsSettlement(), f);
            Last(Filter(IsSettlement(), Sort(KeyLe, f))) == First(ss) <==> ss == [] || IsTop(ss[0], ss)
  {
    var ss := Filter(IsSettlement(), f);
    if ss == [] { NoneInList(IsSettlement(), f); } else { LastInListIff(IsSettlement(), f, ss[0]); }
  }

  ghost predicate FirstIsEarliest(f: seq<Event>) { forall e :: e in f ==> f[0].ts <= e.ts }

  lemma CreationAgreesIff(f: seq<Event>)
    requires f != []
    ensures |Sort(KeyLe, f)| == |f|
    ensures Sort(KeyLe, f)[0].ts == f[0].ts <==> FirstIsEarliest(f)
  {
    var s := Sort(KeyLe, f);
    KeyLeIsTotalPreorder();
    SortSorts(KeyLe, f);
    SortMember(KeyLe, f, f[0]);
    SortMember(KeyLe, f, s[0]);
    forall e | e in f ensures s[0].ts <= e.ts {
      SortMember(KeyLe, f, e);
      var k :| 0 <= k < |s| && s[k] == e;
      assert k > 0 ==> KeyLe(s[0], s[k]);
    }
  }

  lemma SameLatestTs(a: seq<Event>, b: seq<Event>)
    requires forall e :: e in a <==> e in b
    ensures LatestTs(a) == LatestTs(b)
  {
    LatestTsMeaning(a);
    LatestTsMeaning(b);
  }

  lemma SameInstance(f: seq<Event>)
    requires Numbered(f)
    ensures InstanceOf(Last(Filter(HasInstance(), Sort(KeyLe, f)))) == InstanceOf(Last(Filter(HasInstance(), f)))
  {
    if Filter(HasInstance(), f) == [] {
      NoneInList(HasInstance(), f);
    } else {
      LastInList(HasInstance(), f);
      FilterNumbered(HasInstance(), f);
      var g, top := Filter(HasInstance(), f), Last(Filter(HasInstance(), Sort(KeyLe, f))).value;
      var k :| 0 <= k < |g| && g[k] == top;
      assert g[k].inst == g[|g| - 1].inst;
    }
  }

  /** What the two orders never change. */
  lemma FixedFigures(r: string, f: seq<Event>)
    requires Numbered(f)
    ensures var a, b := Summarize(r, Sort(KeyLe, f)), Summarize(r, f);
            a.runId == b.runId && a.inst == b.inst && a.eventCount == b.eventCount && a.updatedAt == b.updatedAt
  {
    var s := Sort(KeyLe, f);
    KeyLeIsTotalPreorder();
    forall e ensures e in s <==> e in f { SortMember(KeyLe, f, e); }
    if f != [] { SortMember(KeyLe, f, f[0]); } else { assert s == []; }
    SummaryTotals(r, s);
    SummaryTotals(r, f);
    SameLatestTs(s, f);
    LastNamed(r, s);
    LastNamed(r, f);
    SameInstance(f);
  }

  /** The figures the two orders can change, and when they do not. */
  ghost predicate SameFigures(f: seq<Event>) {
    && FirstIsEarliest(f)
    && FigureOnTop(Filter(IsCreation(), f), TypeAndTrigger)
    && FigureOnTop(Filter(IsPark(), f), ReasonAndRing)
    && FigureOnTop(Filter(BearsState(), f), StateAfter)
    && FigureOnTop(Filter(IsSettlement(), f), Itself())
  }

  lemma ChangingFigures(r: string, f: seq<Event>)
    requires Numbered(f) && f != []
    ensures var a, b := Summarize(r, Sort(KeyLe, f)), Summarize(r, f);
            && (a.createdAt == b.createdAt <==> FirstIsEarliest(f))
            && ((a.typeRef, a.triggerKind) == (b.typeRef, b.triggerKind) <==>
                  FigureOnTop(Filter(IsCreation(), f), TypeAndTrigger))
            && ((a.parkReason, a.requiredRing) == (b.parkReason, b.requiredRing) <==>
                  FigureOnTop(Filter(IsPark(), f), ReasonAndRing))
            && (a.state == b.state <==> FigureOnTop(Filter(BearsState(), f), StateAfter))
            && (a.settled == b.settled <==> FigureOnTop(Filter(IsSettlement(), f), Itself()))
  {
    var s := Sort(KeyLe, f);
    CreationAgreesIff(f);
    SummaryTotals(r, s);
    SummaryTotals(r, f);
    SummaryDetails(r, s);
    SummaryDetails(r, f);
    SummaryFolds(r, s);
    SummaryFolds(r, f);
    FigureAgreesIff(IsCreation(), TypeAndTrigger, f);
    FigureAgreesIff(IsPark(), ReasonAndRing, f);
    FigureAgreesIff(BearsState(), StateAfter, f);
    FigureAgreesIff(IsSettlement(), Itself(), f);
  }

  /** The whole summary is the same in both orders if and only if the first appended event has the least
      timestamp and, of the creations, the parkings, the state-bearing events and the settlements, the
      latest stamped gives the figure of the last appended. */
  lemma SummariesAgreeIff(r: string, f: seq<Event>)
    requires Numbered(f) && f != []
    ensures Summarize(r, Sort(KeyLe, f)) == Summarize(r, f) <==> SameFigures(f)
  {
    FixedFigures(r, f);
    ChangingFigures(r, f);
  }

  lemma OwnNonEmpty(j: seq<Event>, r: string)
    requires exists e :: e in j && e.run == Some(r)
    ensures Own(j, r) != []
  {
    var e :| e in j && e.run == Some(r);
    FilterMember(OfRun(r), j, e);
  }

  lemma ListedRun(events: seq<Event>, r: string, s: Summary)
    requires s in RunList(events, None) && s.runId == r
    ensures s == Summarize(r, Filter(OfRun(r), events))
  {
    OneSummaryPerRun(events, s);
  }

  /** When list and detail agree: the whole summary, exactly as above; its state alone, exactly if the
      latest stamped state-bearing event gives it; the settlement shown, exactly if the run has none, or
      its first is also its latest stamped. */
  lemma ListAgreesWithDetail(j: seq<Event>, order: seq<string>, views: seq<seq<Event>>, r: string, i: string,
                             s: Summary)
    requires Comparable(j, order, views, r, i) && Uncut(j, order, views, r) && exists e :: e in j && e.run == Some(r)
    requires s in RunList(JournalEvents(Everything(order), views, None, LIMIT), None) && s.runId == r
    ensures RunDetail(j, r).Detail?
    ensures s == RunDetail(j, r).run <==> SameFigures(Own(j, r))
    ensures s.state == RunDetail(j, r).run.state <==> FigureOnTop(Filter(BearsState(), Own(j, r)), StateAfter)
    ensures s.settled == RunDetail(j, r).settlement <==>
            var ss := Filter(IsSettlement(), Own(j, r)); ss == [] || IsTop(ss[0], ss)
  {
    WhatTheViewsRead(j, order, views, r, i);
    OwnNonEmpty(j, r);
    ListedRun(JournalEvents(Everything(order), views, None, LIMIT), r, s);
    SummariesAgreeIff(r, Own(j, r));
    ChangingFigures(r, Own(j, r));
    SummaryFolds(r, Sort(KeyLe, Own(j, r)));
    SettlementsAgreeIff(Own(j, r));
  }

  /** The run is in the list at all, once. */
  lemma ListedOnce(j: seq<Event>, order: seq<string>, views: seq<seq<Event>>, r: string, i: string, s: Summary)
    requires Comparable(j, order, views, r, i) && Uncut(j, order, views, r) && exists e :: e in j && e.run == Some(r)
    ensures s in RunList(JournalEvents(Everything(order), views, None, LIMIT), None) && s.runId == r <==>
            s == Summarize(r, Sort(KeyLe, Own(j, r)))
  {
    var events := JournalEvents(Everything(order), views, None, LIMIT);
    WhatTheViewsRead(j, order, views, r, i);
    OwnNonEmpty(j, r);
    var e := Own(j, r)[0];
    KeyLeIsTotalPreorder();
    SortMember(KeyLe, Own(j, r), e);
    FilterMember(OfRun(r), events, e);
    ListEntry(events, r, s);
  }

  lemma {:induction false} FilterTsOrdered(p: Event -> bool, f: seq<Event>)
    requires TsOrdered(f)
    ensures TsOrdered(Filter(p, f))
  {
    if f == [] {
    } else {
      var rest := Filter(p, f[1..]);
      FilterTsOrdered(p, f[1..]);
      forall b | 0 <= b < |rest| ensures f[0].ts <= rest[b].ts { FilterMember(p, f[1..], rest[b]); }
    }
  }

  /** With the run's timestamps in order, the settlements agree if and only if there is at most one. */
  lemma OneSettlement(j: seq<Event>, r: string, i: string)
    requires Dense(j) && InOneInstance(j, r, i) && TsOrdered(Own(j, r))
    ensures var ss := Filter(IsSettlement(), Own(j, r));
            (ss == [] || IsTop(ss[0], ss)) <==> |ss| <= 1
  {
    var ss := Filter(IsSettlement(), Own(j, r));
    OwnIsNumbered(j, r, i);
    FilterNumbered(IsSettlement(), Own(j, r));
    if |ss| > 1 {
      var last := ss[|ss| - 1];
      FilterTsOrdered(IsSettlement(), Own(j, r));
      assert last in ss && !KeyLe(last, ss[0]);
    } else if |ss| == 1 {
      KeyLeIsTotalPreorder();
      assert KeyLe(ss[0], ss[0]);
    }
  }

  // ---- Clock skew ----------------------------------------------------------------------------

  function SkewCreated(): Event { Event("c", 1, 10, "i", Some("r"), None, RunCreated("t", "k", None)) }
  function SkewSettled(): Event { Event("d", 2, 5, "i", Some("r"), None, RunSettled([], None, 0)) }
  function SkewNoted(): Event { Event("d", 2, 5, "i", Some("r"), None, OtherKind("note")) }

  /** Two events of one run, the second stamped before the first. */
  ghost predicate Skewed(c: Event, d: Event) {
    c.inst == d.inst == "i" && c.run == d.run == Some("r") && c.seqNo == 1 && d.seqNo == 2 && d.ts < c.ts
  }

  lemma GatherOne(i: string, j: seq<Event>)
    ensures Gather([i], [j]) == ReadInstance(j, i)
  {
    assert [j][..0] == [] && [i][..0] == [];
  }

  lemma SkewDense(c: Event, d: Event)
    requires Skewed(c, d)
    ensures Dense([c, d]) && Filter(OfInstance("i"), [c, d]) == [c, d]
  {
    var j := [c, d];
    FilterPair(OfInstance("i"), c, d);
    assert j[..0] == [] && j[..1] == [c];
  }

  lemma SkewList(c: Event, d: Event)
    requires Skewed(c, d)
    ensures JournalEvents(Everything(["i"]), [[c, d]], None, LIMIT) == [d, c]
  {
    SkewDense(c, d);
    SortPair(SeqLe, c, d);
    SortPair(KeyLe, c, d);
    GatherOne("i", [c, d]);
  }

  lemma SkewDetail(c: Event, d: Event)
    requires Skewed(c, d)
    ensures JournalEvents(ByRun("r"), [[c, d]], None, LIMIT) == [c, d]
  {
    FilterPair(OfRun("r"), c, d);
    SortPair(SeqLe, c, d);
  }

  lemma SkewViews(c: Event, d: Event)
    requires Skewed(c, d)
    ensures var j := [c, d];
            && RunDetail(j, "r").Detail? && RunDetail(j, "r").run == Summarize("r", j)
            && Summarize("r", [d, c]) in RunList(JournalEvents(Everything(["i"]), [j], None, LIMIT), None)
  {
    SkewList(c, d);
    SkewDetail(c, d);
    FilterPair(OfRun("r"), d, c);
    SummaryTotals("r", [d, c]);
    assert c in [d, c];
    ListEntry([d, c], "r", Summarize("r", [d, c]));
  }

  /** A settlement stamped before its creation is `Running` in the list and `Settled` in the detail. */
  lemma ClockSkewSplitsTheViews()
    ensures var j := [SkewCreated(), SkewSettled()];
            && RunDetail(j, "r").Detail? && RunDetail(j, "r").run.state == Settled
            && exists s :: s in RunList(JournalEvents(Everything(["i"]), [j], None, LIMIT), None)
                           && s.runId == "r" && s.state == Running
  {
    var c, d := SkewCreated(), SkewSettled();
    SkewViews(c, d);
    FilterPair(BearsState(), c, d);
    FilterPair(BearsState(), d, c);
    SummaryFolds("r", [c, d]);
    SummaryFolds("r", [d, c]);
    SummaryTotals("r", [d, c]);
  }

  lemma NotedSummaries()
    ensures var logged := Summarize("r", [SkewCreated(), SkewNoted()]);
            logged.createdAt == Some(10) && logged.state == Running
    ensures var listed := Summarize("r", [SkewNoted(), SkewCreated()]);
            listed.createdAt == Some(5) && listed.state == Running && listed.settled == None && listed.runId == "r"
    ensures Filter(IsSettlement(), [SkewCreated(), SkewNoted()]) == []
  {
    var c, d := SkewCreated(), SkewNoted();
    FilterPair(BearsState(), c, d);
    FilterPair(BearsState(), d, c);
    FilterPair(IsSettlement(), c, d);
    FilterPair(IsSettlement(), d, c);
    SummaryFolds("r", [c, d]);
    SummaryFolds("r", [d, c]);
    SummaryTotals("r", [c, d]);
    SummaryTotals("r", [d, c]);
  }

  /** An event stamped before the creation moves the list's creation time, though state and settlement
      agree. */
  lemma ClockSkewMovesTheCreation()
    ensures var j := [SkewCreated(), SkewNoted()];
            && RunDetail(j, "r").Detail? && RunDetail(j, "r").run.createdAt == Some(10)
            && exists s :: s in RunList(JournalEvents(Everything(["i"]), [j], None, LIMIT), None)
                           && s.runId == "r" && s.createdAt == Some(5)
                           && s.state == RunDetail(j, "r").run.state && s.settled == RunDetail(j, "r").settlement
  {
    NotedSummaries();
    SkewViews(SkewCreated(), SkewNoted());
    SkewDetail(SkewCreated(), SkewNoted());
  }
}
