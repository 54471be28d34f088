/** `journal_events` of api/src/agentx_api/state.py: gather, sort, select by kind, cut to a window. */
module Reads {
  import opened Sequences
  import opened Sorting
  import opened Journal
  import opened Wrappers

  /** The global sort key `(ts, instance_id, seq)`. */
  predicate KeyLe(a: Event, b: Event) {
    || a.ts < b.ts
    || (a.ts == b.ts && (StringLt(a.inst, b.inst) || (a.inst == b.inst && a.seqNo <= b.seqNo)))
  }

  function KindOf(b: Body): string {
    match b
    case RunCreated(_, _, _) => "run_created"
    case RunSettled(_, _, _) => "run_settled"
    case RunParked(_, _) => "run_parked"
    case ApprovalResolved(_) => "approval_resolved"
    case SyscallAttempted(_) => "syscall_attempted"
    case SyscallSettled(_, _) => "syscall_settled"
    case WatchRegistered(_, _, _) => "watch_registered"
    case WatchFired(_, _) => "watch_fired"
    case DeferredSettled(_) => "deferred_settled"
    case ManagerAction(_, _) => "manager_action"
    case OtherKind(name) => name
  }

  function OfKind(k: string): Event -> bool { (e: Event) => KindOf(e.body) == k }

  function Select(events: seq<Event>, kind: Option<string>, limit: int): seq<Event> {
    LastN(if kind.Some? then Filter(OfKind(kind.value), events) else events, limit)
  }

  /** What a read of all instances collects when the k-th instance is read from `views[k]`:
      appends may happen between two views, so the journals differ. */
  function Gather(order: seq<string>, views: seq<seq<Event>>): seq<Event>
    requires |order| == |views|
  {
    if order == [] then [] else
      Gather(order[..|order| - 1], views[..|views| - 1]) + ReadInstance(views[|views| - 1], order[|order| - 1])
  }

  /** The three sources of `journal_events`. */
  datatype Source = ByRun(run: string) | ByInstance(inst: string) | Everything(order: seq<string>)

  function ReadCount(source: Source): nat {
    if source.Everything? then |source.order| else 1
  }

  /** A read's list before the selection by kind. */
  function Collected(source: Source, views: seq<seq<Event>>): seq<Event>
    requires |views| == ReadCount(source)
  {
    match source
    case ByRun(r) => ReadRun(views[0], r)
    case ByInstance(i) => ReadInstance(views[0], i)
    case Everything(order) => Sort(KeyLe, Gather(order, views))
  }

  function JournalEvents(source: Source, views: seq<seq<Event>>, kind: Option<string>, limit: int): seq<Event>
    requires |views| == ReadCount(source)
  {
    Select(Collected(source, views), kind, limit)
  }

  method ReadJournal(source: Source, views: seq<seq<Event>>, kind: Option<string>, limit: int)
    returns (events: seq<Event>)
    requires |views| == ReadCount(source)
    ensures events == JournalEvents(source, views, kind, limit)
  {
    match source {
      case ByRun(r) => events := ReadRun(views[0], r);
      case ByInstance(i) => events := ReadInstance(views[0], i);
      case Everything(order) =>
        events := [];
        for k := 0 to |order|
          invariant events == Gather(order[..k], views[..k])
        {
          assert order[..k + 1][..k] == order[..k] && views[..k + 1][..k] == views[..k];
          events := events + ReadInstance(views[k], order[k]);
        }
        assert order[..|order|] == order && views[..|order|] == views;
        events := Sort(KeyLe, events);
    }
    if kind.Some? { events := Filter(OfKind(kind.value), events); }
    events := LastN(events, limit);
  }

  /** Timestamps never run backwards inside an instance. */
  ghost predicate MonotoneTs(j: seq<Event>) {
    forall p, q :: 0 <= p < q < |j| && j[p].inst == j[q].inst ==> j[p].ts <= j[q].ts
  }

  lemma KeyLeIsTotalPreorder()
    ensures TotalPreorder(KeyLe)
  {
    StringLeIsTotalPreorder();
  }

  /** Keys tell events of one journal apart. */
  lemma KeyAntisymmetric(j: seq<Event>, a: Event, b: Event)
    requires Dense(j) && a in j && b in j && KeyLe(a, b) && KeyLe(b, a)
    ensures a == b
  {
    StringLeIsTotalPreorder();
    DenseDistinct(j);
  }

  ghost predicate After(e: Event, x: Event) { KeyLe(e, x) && x != e }

  /** The gathered events that sort after `e`. */
  ghost function Later(s: seq<Event>, e: Event): set<Event> { set x | x in s && After(e, x) }

  lemma SortDistinct(got: seq<Event>)
    requires Distinct(got)
    ensures Distinct(Sort(KeyLe, got)) && Sorted(KeyLe, Sort(KeyLe, got))
    ensures forall x :: x in Sort(KeyLe, got) <==> x in got
  {
    KeyLeIsTotalPreorder();
    SortSorts(KeyLe, got);
    SortKeepsDistinct(KeyLe, got);
    forall x ensures x in Sort(KeyLe, got) <==> x in got { SortMember(KeyLe, got, x); }
  }

  lemma LaterIsTail(j: seq<Event>, s: seq<Event>, k: nat)
    requires Dense(j) && Distinct(s) && Sorted(KeyLe, s) && (forall x :: x in s ==> x in j)
    requires k < |s|
    ensures |Later(s, s[k])| == |s| - k - 1
  {
    var e, tail := s[k], s[k + 1..];
    forall x ensures x in tail <==> x in Later(s, e) {
      if x in tail {
        var m :| 0 <= m < |tail| && tail[m] == x;
        assert s[k + 1 + m] == x && KeyLe(s[k], s[k + 1 + m]);
      }
      if x in Later(s, e) {
        var m :| 0 <= m < |s| && s[m] == x;
        if m > k {
          assert tail[m - k - 1] == x;
        } else if m < k {
          KeyAntisymmetric(j, s[m], s[k]);
        }
      }
    }
    assert Later(s, e) == set x | x in tail;
    assert Distinct(tail);
    DistinctSize(tail);
  }

  /** The window as a rank test: an event survives the cut exactly when fewer than `limit` of the
      gathered events sort after it. */
  lemma WindowIsRank(j: seq<Event>, got: seq<Event>, limit: nat, e: Event)
    requires Dense(j) && Distinct(got) && (forall x :: x in got ==> x in j)
    requires e in got && limit > 0
    ensures e in LastN(Sort(KeyLe, got), limit) <==> |Later(got, e)| < limit
  {
    SortDistinct(got);
    var s := Sort(KeyLe, got);
    var k :| 0 <= k < |s| && s[k] == e;
    LaterIsTail(j, s, k);
    assert Later(got, e) == Later(s, e);
    InSuffix(s, if limit > |s| then 0 else |s| - limit, k);
  }

  lemma WindowMember(got: seq<Event>, limit: int, e: Event)
    requires e in LastN(Sort(KeyLe, got), limit)
    ensures e in got
  {
    KeyLeIsTotalPreorder();
    SortMember(KeyLe, got, e);
    var s := Sort(KeyLe, got);
    assert forall x :: x in LastN(s, limit) ==> x in s;
  }

  lemma SubsetSize<T>(a: set<T>, b: set<T>)
    requires a <= b
    ensures |a| <= |b|
  {
    assert b == a + (b - a);
  }

  /** If more is gathered, no event's rank improves. */
  lemma LaterGrows(a: seq<Event>, b: seq<Event>, e: Event)
    requires forall x :: x in a ==> x in b
    ensures |Later(a, e)| <= |Later(b, e)|
  {
    SubsetSize(Later(a, e), Later(b, e));
  }

  // ---- What a read returns -------------------------------------------------------------------

  /** What a source offers a read: the events of the run, of the instance, or of every instance read. */
  ghost predicate Offers(source: Source, views: seq<seq<Event>>, e: Event)
    requires |views| == ReadCount(source)
  {
    match source
    case ByRun(r) => e in views[0] && e.run == Some(r)
    case ByInstance(i) => e in views[0] && e.inst == i
    case Everything(order) => exists k :: 0 <= k < |order| && e in views[k] && e.inst == order[k]
  }

  /** `x` sorts after `e`: by number in a log, and among a run's equal numbers as appended; over all
      instances by `(ts, instance_id, seq)`. */
  ghost predicate SortsAfter(source: Source, views: seq<seq<Event>>, e: Event, x: Event)
    requires |views| == ReadCount(source)
  {
    match source
    case ByRun(_) => x.seqNo > e.seqNo || (x.seqNo == e.seqNo && Precedes(views[0], e, x))
    case ByInstance(_) => x.seqNo > e.seqNo
    case Everything(_) =>
      || x.ts > e.ts
      || (x.ts == e.ts && (StringLt(e.inst, x.inst) || (x.inst == e.inst && x.seqNo > e.seqNo)))
  }

  /** The views of one growing journal. */
  ghost predicate ViewsOf(source: Source, views: seq<seq<Event>>, j: seq<Event>) {
    && Dense(j) && |views| == ReadCount(source) && (forall k :: 0 <= k < |views| ==> views[k] <= j)
    && (source.Everything? ==> Distinct(source.order))
  }

  lemma DensePrefix(j: seq<Event>, view: seq<Event>)
    requires Dense(j) && view <= j
    ensures Dense(view)
  {
    forall p | 0 <= p < |view| ensures view[p].seqNo == |Log(view[..p], view[p].inst)| + 1 {
      assert view[..p] == j[..p] && view[p] == j[p];
    }
  }

  lemma SeqLeIsTotalPreorder()
    ensures TotalPreorder(SeqLe)
  {
  }

  /** Sorting a selection of a journal by number: what it holds and in which order. */
  lemma SortedSelection(view: seq<Event>, p: Event -> bool)
    requires Dense(view)
    ensures var s := Sort(SeqLe, Filter(p, view));
            && Distinct(s) && (forall e :: e in s <==> e in view && p(e))
            && forall e, x :: e in s && x in s && e != x ==>
                 (Precedes(s, e, x) <==> x.seqNo > e.seqNo || (x.seqNo == e.seqNo && Precedes(view, e, x)))
  {
    var f := Filter(p, view);
    SeqLeIsTotalPreorder();
    DenseDistinct(view);
    FilterDistinct(p, view);
    SortKeepsDistinct(SeqLe, f);
    forall e ensures e in Sort(SeqLe, f) <==> e in view && p(e) {
      SortMember(SeqLe, f, e);
      FilterMember(p, view, e);
    }
    forall e, x | e in Sort(SeqLe, f) && x in Sort(SeqLe, f) && e != x
      ensures Precedes(Sort(SeqLe, f), e, x) <==>
              x.seqNo > e.seqNo || (x.seqNo == e.seqNo && Precedes(view, e, x))
    {
      SortMember(SeqLe, f, e);
      SortMember(SeqLe, f, x);
      SortPlaces(SeqLe, f, e, x);
      FilterPrecedes(p, view, e, x);
    }
  }

  lemma OffersSnoc(order: seq<string>, views: seq<seq<Event>>, e: Event)
    requires order != [] && |views| == |order|
    ensures var n := |order| - 1;
            Offers(Everything(order), views, e) <==>
            Offers(Everything(order[..n]), views[..n], e) || (e in views[n] && e.inst == order[n])
  {
    var n := |order| - 1;
    if k :| 0 <= k < n && e in views[..n][k] && e.inst == order[..n][k] {
      assert e in views[k] && e.inst == order[k];
    }
    if k :| 0 <= k < |order| && e in views[k] && e.inst == order[k] {
      if k < n { assert e in views[..n][k] && e.inst == order[..n][k]; }
    }
  }

  lemma ReadsOfInstance(view: seq<Event>, i: string)
    requires Dense(view)
    ensures Distinct(ReadInstance(view, i))
    ensures forall e :: e in ReadInstance(view, i) <==> e in view && e.inst == i
  {
    ReadInstanceIsLog(view, i);
    DenseDistinct(view);
    FilterDistinct(OfInstance(i), view);
    forall e ensures e in Log(view, i) <==> e in view && e.inst == i { FilterMember(OfInstance(i), view, e); }
  }

  lemma DistinctConcat(a: seq<Event>, b: seq<Event>)
    requires Distinct(a) && Distinct(b) && forall e :: e in a ==> e !in b
    ensures Distinct(a + b)
  {
    assert forall k :: 0 <= k < |a| ==> a[k] in a;
    assert forall k :: 0 <= k < |b| ==> b[k] in b;
  }

  lemma {:induction false} GatherIsOffered(order: seq<string>, views: seq<seq<Event>>, j: seq<Event>)
    requires ViewsOf(Everything(order), views, j)
    ensures Distinct(Gather(order, views))
    ensures forall e :: e in Gather(order, views) <==> Offers(Everything(order), views, e)
    ensures forall e :: e in Gather(order, views) ==> e in j && e.inst in order
  {
    if order == [] {
    } else {
      var n := |order| - 1;
      assert order[n] !in order[..n] && order == order[..n] + [order[n]];
      GatherIsOffered(order[..n], views[..n], j);
      DensePrefix(j, views[n]);
      ReadsOfInstance(views[n], order[n]);
      DistinctConcat(Gather(order[..n], views[..n]), ReadInstance(views[n], order[n]));
      forall e ensures e in Gather(order, views) <==> Offers(Everything(order), views, e) {
        OffersSnoc(order, views, e);
      }
    }
  }

  lemma InstanceOrder(view: seq<Event>, e: Event, x: Event)
    requires Dense(view) && e in view && x in view && e.inst == x.inst && e != x
    ensures e.seqNo != x.seqNo
  {
    DenseDistinct(view);
  }

  lemma GatherOrder(got: seq<Event>, j: seq<Event>, e: Event, x: Event)
    requires Dense(j) && Distinct(got) && (forall y :: y in got ==> y in j) && e in got && x in got && e != x
    ensures Precedes(Sort(KeyLe, got), e, x) <==>
            || x.ts > e.ts
            || (x.ts == e.ts && (StringLt(e.inst, x.inst) || (x.inst == e.inst && x.seqNo > e.seqNo)))
  {
    KeyLeIsTotalPreorder();
    SortPlaces(KeyLe, got, e, x);
    if KeyLe(x, e) && KeyLe(e, x) { KeyAntisymmetric(j, e, x); }
    StringLeTotal(e.inst, x.inst);
  }

  lemma CollectedIsSorted(source: Source, views: seq<seq<Event>>, j: seq<Event>)
    requires ViewsOf(source, views, j)
    ensures var s := Collected(source, views);
            && Distinct(s) && (forall e :: e in s <==> Offers(source, views, e))
            && forall e, x :: e in s && x in s && e != x ==> (Precedes(s, e, x) <==> SortsAfter(source, views, e, x))
  {
    match source
    case ByRun(r) =>
      DensePrefix(j, views[0]);
      SortedSelection(views[0], OfRun(r));
    case ByInstance(i) =>
      DensePrefix(j, views[0]);
      SortedSelection(views[0], OfInstance(i));
      forall e, x | Offers(source, views, e) && Offers(source, views, x) && e != x ensures e.seqNo != x.seqNo {
        InstanceOrder(views[0], e, x);
      }
    case Everything(order) =>
      var got := Gather(order, views);
      GatherIsOffered(order, views, j);
      SortDistinct(got);
      forall e, x | e in got && x in got && e != x
        ensures Precedes(Sort(KeyLe, got), e, x) <==> SortsAfter(source, views, e, x)
      {
        GatherOrder(got, j, e, x);
      }
  }

  lemma OfferedIsJournaled(source: Source, views: seq<seq<Event>>, j: seq<Event>, e: Event)
    requires ViewsOf(source, views, j) && Offers(source, views, e)
    ensures e in j
  {
  }

  /** The events a read chooses from. */
  ghost predicate Wanted(source: Source, views: seq<seq<Event>>, kind: Option<string>, e: Event)
    requires |views| == ReadCount(source)
  {
    Offers(source, views, e) && (kind.None? || KindOf(e.body) == kind.value)
  }

  lemma SelectedByKind(source: Source, views: seq<seq<Event>>, j: seq<Event>, kind: Option<string>)
    requires ViewsOf(source, views, j)
    ensures var all := Collected(source, views);
            var s := if kind.Some? then Filter(OfKind(kind.value), all) else all;
            && Distinct(s) && (forall e :: e in s <==> Wanted(source, views, kind, e))
            && forall e, x :: e in s && x in s && e != x ==> (Precedes(s, e, x) <==> SortsAfter(source, views, e, x))
  {
    var all := Collected(source, views);
    CollectedIsSorted(source, views, j);
    if kind.Some? {
      var p := OfKind(kind.value);
      FilterDistinct(p, all);
      forall e ensures e in Filter(p, all) <==> Wanted(source, views, kind, e) { FilterMember(p, all, e); }
      forall e, x | e in Filter(p, all) && x in Filter(p, all) && e != x
        ensures Precedes(Filter(p, all), e, x) <==> SortsAfter(source, views, e, x)
      {
        FilterMember(p, all, e);
        FilterMember(p, all, x);
        FilterPrecedes(p, all, e, x);
      }
    }
  }

  lemma NotAfterItself(source: Source, views: seq<seq<Event>>, j: seq<Event>, e: Event)
    requires ViewsOf(source, views, j)
    ensures !SortsAfter(source, views, e, e)
  {
    if source.ByRun? {
      DensePrefix(j, views[0]);
      DenseDistinct(views[0]);
    }
  }

  /** The wanted events that sort after `e`, and those that sort before it. */
  ghost function WantedAfter(source: Source, views: seq<seq<Event>>, j: seq<Event>, kind: Option<string>, e: Event)
    : set<Event>
    requires |views| == ReadCount(source)
  {
    set x | x in j && Wanted(source, views, kind, x) && SortsAfter(source, views, e, x)
  }

  ghost function WantedBefore(source: Source, views: seq<seq<Event>>, j: seq<Event>, kind: Option<string>, e: Event)
    : set<Event>
    requires |views| == ReadCount(source)
  {
    set x | x in j && Wanted(source, views, kind, x) && SortsAfter(source, views, x, e)
  }

  lemma RanksAgree(source: Source, views: seq<seq<Event>>, j: seq<Event>, kind: Option<string>, s: seq<Event>, e: Event)
    requires ViewsOf(source, views, j) && Distinct(s) && e in s
    requires forall x :: x in s <==> Wanted(source, views, kind, x)
    requires forall e, x :: e in s && x in s && e != x ==> (Precedes(s, e, x) <==> SortsAfter(source, views, e, x))
    ensures (set x | x in s && Precedes(s, e, x)) == WantedAfter(source, views, j, kind, e)
    ensures (set x | x in s && Precedes(s, x, e)) == WantedBefore(source, views, j, kind, e)
  {
    NotAfterItself(source, views, j, e);
    forall x ensures x in s ==> x in j { if x in s { OfferedIsJournaled(source, views, j, x); } }
    assert !Precedes(s, e, e);
  }

  /** What a read returns, for every source, kind and limit: an event that is offered and of the kind, if
      fewer than `limit` such events sort after it; for a limit of 0 or less, which makes the slice drop
      from the front, if at least that many sort before it. */
  lemma ReadReturns(source: Source, views: seq<seq<Event>>, j: seq<Event>, kind: Option<string>, limit: int, e: Event)
    requires ViewsOf(source, views, j)
    ensures e in JournalEvents(source, views, kind, limit) <==>
            && Wanted(source, views, kind, e)
            && if limit > 0 then |WantedAfter(source, views, j, kind, e)| < limit
               else |WantedBefore(source, views, j, kind, e)| >= -limit
  {
    var all := Collected(source, views);
    var s := if kind.Some? then Filter(OfKind(kind.value), all) else all;
    SelectedByKind(source, views, j, kind);
    assert JournalEvents(source, views, kind, limit) == LastN(s, limit);
    assert forall x :: x in LastN(s, limit) ==> x in s;
    if e in s {
      LastNIsRank(s, limit, e);
      RanksAgree(source, views, j, kind, s, e);
    }
  }

  /** The result is in that order, nothing twice. */
  lemma ReadIsOrdered(source: Source, views: seq<seq<Event>>, j: seq<Event>, kind: Option<string>, limit: int,
                      a: nat, b: nat)
    requires ViewsOf(source, views, j)
    requires a < b < |JournalEvents(source, views, kind, limit)|
    ensures var r := JournalEvents(source, views, kind, limit);
            r[a] != r[b] && SortsAfter(source, views, r[a], r[b])
  {
    var all := Collected(source, views);
    var s := if kind.Some? then Filter(OfKind(kind.value), all) else all;
    SelectedByKind(source, views, j, kind);
    var r := JournalEvents(source, views, kind, limit);
    LastNOrdered(s, limit, a, b);
  }

  /** The names of the kinds. */
  lemma KindNames(b: Body)
    requires !b.OtherKind?
    ensures KindOf(b) == "run_created" <==> b.RunCreated?
    ensures KindOf(b) == "run_settled" <==> b.RunSettled?
    ensures KindOf(b) == "run_parked" <==> b.RunParked?
    ensures KindOf(b) == "approval_resolved" <==> b.ApprovalResolved?
    ensures KindOf(b) == "syscall_attempted" <==> b.SyscallAttempted?
    ensures KindOf(b) == "syscall_settled" <==> b.SyscallSettled?
    ensures KindOf(b) == "watch_registered" <==> b.WatchRegistered?
    ensures KindOf(b) == "watch_fired" <==> b.WatchFired?
    ensures KindOf(b) == "deferred_settled" <==> b.DeferredSettled?
    ensures KindOf(b) == "manager_action" <==> b.ManagerAction?
  {
  }
}
