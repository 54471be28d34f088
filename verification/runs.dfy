/** Run state derived from the journal: `_summarize_run`, `run_summaries`, `run_detail` and the
    counts of `system_overview` (api/src/agentx_api/state.py). */
module Runs {
  import opened Sequences
  import opened Sorting
  import opened Journal
  import opened Wrappers

  datatype RunState = Created | Running | Settled | Parked | ApprovedPendingResume

  datatype Summary = Summary(
    runId: string, inst: string, typeRef: string, triggerKind: string, state: RunState,
    parkReason: Option<string>, requiredRing: Option<string>, eventCount: nat,
    createdAt: Option<int>, updatedAt: int, settled: Option<Event>)

  const EPOCH := 0

  function Blank(run: string): Summary {
    Summary(run, "", "", "", Created, None, None, 0, None, EPOCH, None)
  }

  /** One turn of the summarizing loop. */
  function Absorb(s: Summary, e: Event): Summary {
    var s := s.(updatedAt := if e.ts > s.updatedAt then e.ts else s.updatedAt,
                inst := if e.inst != "" then e.inst else s.inst,
                eventCount := s.eventCount + 1,
                createdAt := if s.createdAt.None? then Some(e.ts) else s.createdAt);
    match e.body
    case RunCreated(typeRef, trigger, _) => s.(state := Running, typeRef := typeRef, triggerKind := trigger)
    case RunSettled(_, _, _) => s.(state := Settled, settled := Some(e))
    case RunParked(reason, ring) => s.(state := Parked, parkReason := Some(reason), requiredRing := ring)
    case ApprovalResolved(_) => s.(state := ApprovedPendingResume)
    case _ => s
  }

  function Summarize(run: string, events: seq<Event>): Summary {
    if events == [] then Blank(run) else Absorb(Summarize(run, events[..|events| - 1]), events[|events| - 1])
  }

  lemma SummarizeSnoc(run: string, events: seq<Event>, k: nat)
    requires k < |events|
    ensures Summarize(run, events[..k + 1]) == Absorb(Summarize(run, events[..k]), events[k])
  {
    assert events[..k + 1][..k] == events[..k];
  }

  method SummarizeRun(run: string, events: seq<Event>) returns (s: Summary)
    ensures s == Summarize(run, events)
  {
    var state, typeRef, inst, triggerKind, lastTs := Created, "", "", "", EPOCH;
    var settled: Option<Event>, reason: Option<string>, ring: Option<string> := None, None, None;
    for k := 0 to |events|
      invariant Summarize(run, events[..k]) ==
                Summary(run, inst, typeRef, triggerKind, state, reason, ring, k,
                        Summarize(run, events[..k]).createdAt, lastTs, settled)
      invariant k > 0 ==> Summarize(run, events[..k]).createdAt == Some(events[0].ts)
    {
      var e := events[k];
      SummarizeSnoc(run, events, k);
      if e.ts > lastTs { lastTs := e.ts; }
      if e.inst != "" { inst := e.inst; }
      match e.body {
        case RunCreated(t, trigger, _) => state, typeRef, triggerKind := Running, t, trigger;
        case RunSettled(_, _, _) => state, settled := Settled, Some(e);
        case RunParked(why, needed) => state, reason, ring := Parked, Some(why), needed;
        case ApprovalResolved(_) => state := ApprovedPendingResume;
        case _ =>
      }
    }
    assert events[..|events|] == events;
    s := Summary(run, inst, typeRef, triggerKind, state, reason, ring, |events|,
                 if events == [] then None else Some(events[0].ts), lastTs, settled);
  }

  function StateBorne(e: Event): Option<RunState> {
    match e.body
    case RunCreated(_, _, _) => Some(Running)
    case RunSettled(_, _, _) => Some(Settled)
    case RunParked(_, _) => Some(Parked)
    case ApprovalResolved(_) => Some(ApprovedPendingResume)
    case _ => None
  }

  function BearsState(): Event -> bool { (e: Event) => StateBorne(e).Some? }
  function IsSettlement(): Event -> bool { (e: Event) => e.body.RunSettled? }
  function IsCreation(): Event -> bool { (e: Event) => e.body.RunCreated? }
  function IsPark(): Event -> bool { (e: Event) => e.body.RunParked? }
  function HasInstance(): Event -> bool { (e: Event) => e.inst != "" }

  function First(s: seq<Event>): Option<Event> { if s == [] then None else Some(s[0]) }
  function Last(s: seq<Event>): Option<Event> { if s == [] then None else Some(s[|s| - 1]) }

  /** The state of a run whose last state-bearing event is the given one. */
  function StateAfter(e: Option<Event>): RunState {
    match e
    case None => Created
    case Some(e) => match StateBorne(e) { case Some(state) => state case None => Created }
  }

  function LastState(events: seq<Event>): RunState { StateAfter(Last(Filter(BearsState(), events))) }

  lemma {:induction false} SummaryFolds(run: string, events: seq<Event>)
    ensures Summarize(run, events).state == LastState(events)
    ensures Summarize(run, events).settled == Last(Filter(IsSettlement(), events))
  {
    if events == [] {
    } else {
      var front, last := events[..|events| - 1], events[|events| - 1];
      assert events == front + [last];
      SummaryFolds(run, front);
      FilterSnoc(BearsState(), front, last);
      FilterSnoc(IsSettlement(), front, last);
      if StateBorne(last).None? { assert Filter(BearsState(), events) == Filter(BearsState(), front); }
      if !last.body.RunSettled? { assert Filter(IsSettlement(), events) == Filter(IsSettlement(), front); }
    }
  }

  function TypeAndTrigger(e: Option<Event>): (string, string) {
    if e.Some? && e.value.body.RunCreated? then (e.value.body.typeRef, e.value.body.triggerKind) else ("", "")
  }

  function ReasonAndRing(e: Option<Event>): (Option<string>, Option<string>) {
    if e.Some? && e.value.body.RunParked? then (Some(e.value.body.reason), e.value.body.requiredRing) else (None, None)
  }

  function InstanceOf(e: Option<Event>): string { if e.Some? then e.value.inst else "" }

  lemma LastSnoc(p: Event -> bool, events: seq<Event>, e: Event)
    ensures Last(Filter(p, events + [e])) == if p(e) then Some(e) else Last(Filter(p, events))
  {
    FilterSnoc(p, events, e);
  }

  lemma {:induction false} LastCreation(run: string, events: seq<Event>)
    ensures var s := Summarize(run, events);
            (s.typeRef, s.triggerKind) == TypeAndTrigger(Last(Filter(IsCreation(), events)))
  {
    if events == [] {
    } else {
      var front, last := events[..|events| - 1], events[|events| - 1];
      assert events == front + [last];
      LastCreation(run, front);
      LastSnoc(IsCreation(), front, last);
    }
  }

  lemma {:induction false} LastPark(run: string, events: seq<Event>)
    ensures var s := Summarize(run, events);
            (s.parkReason, s.requiredRing) == ReasonAndRing(Last(Filter(IsPark(), events)))
  {
    if events == [] {
    } else {
      var front, last := events[..|events| - 1], events[|events| - 1];
      assert events == front + [last];
      LastPark(run, front);
      LastSnoc(IsPark(), front, last);
    }
  }

  lemma {:induction false} LastNamed(run: string, events: seq<Event>)
    ensures Summarize(run, events).inst == InstanceOf(Last(Filter(HasInstance(), events)))
  {
    if events == [] {
    } else {
      var front, last := events[..|events| - 1], events[|events| - 1];
      assert events == front + [last];
      LastNamed(run, front);
      LastSnoc(HasInstance(), front, last);
    }
  }

  /** Type and trigger are those of the last creation, reason and ring of the last parking, and the
      instance that of the last event naming one. */
  lemma SummaryDetails(run: string, events: seq<Event>)
    ensures var s := Summarize(run, events);
            && (s.typeRef, s.triggerKind) == TypeAndTrigger(Last(Filter(IsCreation(), events)))
            && (s.parkReason, s.requiredRing) == ReasonAndRing(Last(Filter(IsPark(), events)))
            && s.inst == InstanceOf(Last(Filter(HasInstance(), events)))
  {
    LastCreation(run, events);
    LastPark(run, events);
    LastNamed(run, events);
  }

  function LatestTs(events: seq<Event>): int {
    if events == [] then EPOCH else
      var front, ts := LatestTs(events[..|events| - 1]), events[|events| - 1].ts;
      if ts > front then ts else front
  }

  lemma {:induction false} SummaryTotals(run: string, events: seq<Event>)
    ensures var s := Summarize(run, events);
            && s.runId == run && s.eventCount == |events| && s.updatedAt == LatestTs(events)
            && s.createdAt == (if events == [] then None else Some(events[0].ts))
  {
    if events == [] {
    } else {
      SummaryTotals(run, events[..|events| - 1]);
    }
  }

  lemma {:induction false} LatestTsMeaning(events: seq<Event>)
    ensures LatestTs(events) >= EPOCH && (forall e :: e in events ==> e.ts <= LatestTs(events))
    ensures LatestTs(events) == EPOCH || exists e :: e in events && e.ts == LatestTs(events)
  {
    if events == [] {
    } else {
      var front, last := events[..|events| - 1], events[|events| - 1];
      assert events == front + [last];
      LatestTsMeaning(front);
      assert last in events;
    }
  }

  /** What a summary says: the state of the last state-bearing event, the last settlement, every
      event counted, and the latest timestamp not before the epoch. */
  lemma SummaryMeaning(run: string, events: seq<Event>)
    ensures var s := Summarize(run, events);
            && s.runId == run && s.eventCount == |events| && s.state == LastState(events)
            && s.settled == Last(Filter(IsSettlement(), events))
            && s.createdAt == (if events == [] then None else Some(events[0].ts))
            && s.updatedAt >= 0 && (forall e :: e in events ==> e.ts <= s.updatedAt)
            && (s.updatedAt == 0 || exists e :: e in events && e.ts == s.updatedAt)
  {
    SummaryFolds(run, events);
    SummaryTotals(run, events);
    LatestTsMeaning(events);
  }

  lemma LastIsAt(p: Event -> bool, events: seq<Event>)
    ensures forall k :: LastAt(p, events, k) ==> Last(Filter(p, events)) == Some(events[k])
    ensures (forall e :: e in events ==> !p(e)) ==> Last(Filter(p, events)) == None
  {
    forall k | LastAt(p, events, k) ensures Last(Filter(p, events)) == Some(events[k]) { FilterEnds(p, events, k); }
    FilterAllOrNone(p, events);
  }

  lemma FirstIsAt(p: Event -> bool, events: seq<Event>)
    ensures forall k :: FirstAt(p, events, k) ==> First(Filter(p, events)) == Some(events[k])
    ensures (forall e :: e in events ==> !p(e)) ==> First(Filter(p, events)) == None
  {
    forall k | FirstAt(p, events, k) ensures First(Filter(p, events)) == Some(events[k]) { FilterEnds(p, events, k); }
    FilterAllOrNone(p, events);
  }

  /** The state shown, event by event. */
  lemma StateShown(run: string, events: seq<Event>)
    ensures var s := Summarize(run, events);
            && ((forall e :: e in events ==> !BearsState()(e)) ==> s.state == Created)
            && (forall k :: LastAt(BearsState(), events, k) ==>
                  match events[k].body
                  case RunCreated(_, _, _) => s.state == Running
                  case RunSettled(_, _, _) => s.state == Settled
                  case RunParked(_, _) => s.state == Parked
                  case ApprovalResolved(_) => s.state == ApprovedPendingResume
                  case _ => false)
            && forall e :: BearsState()(e) <==>
                 e.body.RunCreated? || e.body.RunSettled? || e.body.RunParked? || e.body.ApprovalResolved?
  {
    SummaryFolds(run, events);
    LastIsAt(BearsState(), events);
  }

  /** The other figures, event by event: each is what the last event of its kind says. */
  lemma CreationShown(run: string, events: seq<Event>, k: nat)
    requires LastAt(IsCreation(), events, k)
    ensures Summarize(run, events).typeRef == events[k].body.typeRef
    ensures Summarize(run, events).triggerKind == events[k].body.triggerKind
  {
    LastCreation(run, events);
    LastIsAt(IsCreation(), events);
  }

  lemma ParkShown(run: string, events: seq<Event>, k: nat)
    requires LastAt(IsPark(), events, k)
    ensures Summarize(run, events).parkReason == Some(events[k].body.reason)
    ensures Summarize(run, events).requiredRing == events[k].body.requiredRing
  {
    LastPark(run, events);
    LastIsAt(IsPark(), events);
  }

  lemma SettlementShown(run: string, events: seq<Event>, k: nat)
    requires LastAt(IsSettlement(), events, k)
    ensures Summarize(run, events).settled == Some(events[k]) && events[k].body.RunSettled?
  {
    SummaryFolds(run, events);
    LastIsAt(IsSettlement(), events);
  }

  lemma InstanceShown(run: string, events: seq<Event>, k: nat)
    requires LastAt(HasInstance(), events, k)
    ensures Summarize(run, events).inst == events[k].inst != ""
  {
    LastNamed(run, events);
    LastIsAt(HasInstance(), events);
  }

  /** Without such an event the figures stay blank. */
  lemma NothingShown(run: string, events: seq<Event>)
    ensures var s := Summarize(run, events);
            && ((forall e :: e in events ==> !e.body.RunCreated?) ==> s.typeRef == "" && s.triggerKind == "")
            && ((forall e :: e in events ==> !e.body.RunParked?) ==> s.parkReason == None && s.requiredRing == None)
            && ((forall e :: e in events ==> !e.body.RunSettled?) ==> s.settled == None)
            && ((forall e :: e in events ==> e.inst == "") ==> s.inst == "")
  {
    SummaryFolds(run, events);
    SummaryDetails(run, events);
    LastIsAt(IsCreation(), events);
    LastIsAt(IsPark(), events);
    LastIsAt(HasInstance(), events);
    LastIsAt(IsSettlement(), events);
  }

  // ---- Grouping ------------------------------------------------------------------------------

  /** Run ids in order of first appearance. */
  function RunIds(events: seq<Event>): seq<string> {
    if events == [] then [] else
      var ids, last := RunIds(events[..|events| - 1]), events[|events| - 1];
      if last.run.Some? && last.run.value !in ids then ids + [last.run.value] else ids
  }

  function Summaries(ids: seq<string>, events: seq<Event>): seq<Summary> {
    if ids == [] then [] else
      Summaries(ids[..|ids| - 1], events) + [Summarize(ids[|ids| - 1], Filter(OfRun(ids[|ids| - 1]), events))]
  }

  predicate NewerFirst(a: Summary, b: Summary) { a.updatedAt >= b.updatedAt }

  function InState(filter: Option<RunState>): Summary -> bool {
    (s: Summary) => filter.None? || s.state == filter.value
  }

  function RunList(events: seq<Event>, filter: Option<RunState>): seq<Summary> {
    Filter(InState(filter), Sort(NewerFirst, Summaries(RunIds(events), events)))
  }

  ghost predicate Grouped(byRun: map<string, seq<Event>>, order: seq<string>, events: seq<Event>) {
    && order == RunIds(events)
    && (forall r :: r in byRun <==> r in order)
    && (forall r :: Filter(OfRun(r), events) == if r in byRun then byRun[r] else [])
  }

  function GroupInto(byRun: map<string, seq<Event>>, e: Event): map<string, seq<Event>> {
    if e.run.None? then byRun
    else byRun[e.run.value := (if e.run.value in byRun then byRun[e.run.value] else []) + [e]]
  }

  lemma GroupGrows(r: string, events: seq<Event>, e: Event)
    ensures Filter(OfRun(r), events + [e]) ==
            if e.run == Some(r) then Filter(OfRun(r), events) + [e] else Filter(OfRun(r), events)
  {
    FilterSnoc(OfRun(r), events, e);
  }

  function NextOrder(order: seq<string>, e: Event): seq<string> {
    if e.run.Some? && e.run.value !in order then order + [e.run.value] else order
  }

  lemma RunIdsSnoc(events: seq<Event>, e: Event)
    ensures RunIds(events + [e]) == NextOrder(RunIds(events), e)
  {
    assert (events + [e])[..|events + [e]| - 1] == events;
  }

  lemma GroupStep(byRun: map<string, seq<Event>>, order: seq<string>, events: seq<Event>, e: Event)
    requires Grouped(byRun, order, events)
    ensures Grouped(GroupInto(byRun, e), NextOrder(order, e), events + [e])
  {
    RunIdsSnoc(events, e);
    var byRun' := GroupInto(byRun, e);
    forall r ensures Filter(OfRun(r), events + [e]) == if r in byRun' then byRun'[r] else [] {
      GroupGrows(r, events, e);
      assert Filter(OfRun(r), events) == if r in byRun then byRun[r] else [];
    }
    forall r ensures r in byRun' <==> r in NextOrder(order, e) {
      assert r in byRun <==> r in order;
    }
  }

  /** The grouping loop of `run_summaries`. */
  method GroupRuns(events: seq<Event>) returns (byRun: map<string, seq<Event>>, order: seq<string>)
    ensures Grouped(byRun, order, events)
  {
    byRun, order := map[], [];
    for k := 0 to |events|
      invariant Grouped(byRun, order, events[..k])
    {
      var e := events[k];
      assert events[..k + 1] == events[..k] + [e];
      GroupStep(byRun, order, events[..k], e);
      if e.run.Some? {
        if e.run.value !in byRun { order := order + [e.run.value]; }
        byRun := GroupInto(byRun, e);
      }
    }
    assert events[..|events|] == events;
  }

  /** `run_summaries` after its read: group in a dictionary, summarize each group, sort, filter. */
  method RunSummaries(events: seq<Event>, filter: Option<RunState>) returns (runs: seq<Summary>)
    ensures runs == RunList(events, filter)
  {
    var byRun, order := GroupRuns(events);
    runs := [];
    for k := 0 to |order|
      invariant runs == Summaries(order[..k], events)
    {
      assert order[..k + 1][..k] == order[..k];
      var s := SummarizeRun(order[k], byRun[order[k]]);
      runs := runs + [s];
    }
    assert order[..|order|] == order;
    runs := Filter(InState(filter), Sort(NewerFirst, runs));
  }

  /** Every run id has exactly one group. */
  lemma {:induction false} RunIdsMeaning(events: seq<Event>)
    ensures Distinct(RunIds(events))
    ensures forall r :: r in RunIds(events) <==> exists e :: e in events && e.run == Some(r)
  {
    if events == [] {
    } else {
      var front, last := events[..|events| - 1], events[|events| - 1];
      assert events == front + [last];
      RunIdsMeaning(front);
      assert last in events;
      forall r | exists e :: e in events && e.run == Some(r) ensures r in RunIds(events) {
        var e :| e in events && e.run == Some(r);
        assert e in front || e == last;
      }
    }
  }

  lemma {:induction false} SummariesMember(ids: seq<string>, events: seq<Event>, s: Summary)
    ensures s in Summaries(ids, events) <==> exists r :: r in ids && s == Summarize(r, Filter(OfRun(r), events))
  {
    if ids == [] {
    } else {
      var front, last := ids[..|ids| - 1], ids[|ids| - 1];
      assert ids == front + [last];
      SummariesMember(front, events, s);
      assert last in ids;
    }
  }

  lemma {:induction false} SummariesLength(ids: seq<string>, events: seq<Event>)
    ensures |Summaries(ids, events)| == |ids|
  {
    if ids == [] {
    } else {
      SummariesLength(ids[..|ids| - 1], events);
    }
  }

  /** The unfiltered list holds exactly one summary per run id, whatever its sort order. */
  lemma OneSummaryPerRun(events: seq<Event>, s: Summary)
    ensures s in RunList(events, None) <==>
            && (exists e :: e in events && e.run == Some(s.runId))
            && s == Summarize(s.runId, Filter(OfRun(s.runId), events))
    ensures |RunList(events, None)| == |RunIds(events)|
  {
    RunIdsMeaning(events);
    var all := Summaries(RunIds(events), events);
    SummariesMember(RunIds(events), events, s);
    SortMember(NewerFirst, all, s);
    FilterAllOrNone(InState(None), Sort(NewerFirst, all));
    SummariesLength(RunIds(events), events);
    forall r ensures Summarize(r, Filter(OfRun(r), events)).runId == r { SummaryMeaning(r, Filter(OfRun(r), events)); }
  }

  // ---- The order of the list -----------------------------------------------------------------

  /** An event of run `r` stands before every event of run `q`. */
  ghost predicate SeenBefore(events: seq<Event>, r: string, q: string) {
    exists p :: 0 <= p < |events| && events[p].run == Some(r) && forall k :: 0 <= k <= p ==> events[k].run != Some(q)
  }

  lemma SeenBeforeGrows(front: seq<Event>, last: Event, r: string, q: string)
    requires SeenBefore(front, r, q)
    ensures SeenBefore(front + [last], r, q)
  {
    var p :| 0 <= p < |front| && front[p].run == Some(r) && forall k :: 0 <= k <= p ==> front[k].run != Some(q);
    var s := front + [last];
    assert s[p].run == Some(r) && forall k :: 0 <= k <= p ==> s[k] == front[k];
  }

  lemma {:induction false} RunIdsInOrder(events: seq<Event>, a: nat, b: nat)
    requires a < b < |RunIds(events)|
    ensures SeenBefore(events, RunIds(events)[a], RunIds(events)[b])
  {
    var front, last := events[..|events| - 1], events[|events| - 1];
    var ids := RunIds(front);
    assert events == front + [last];
    RunIdsSnoc(front, last);
    RunIdsMeaning(front);
    if b < |ids| {
      RunIdsInOrder(front, a, b);
      SeenBeforeGrows(front, last, ids[a], ids[b]);
    } else {
      assert ids[a] in ids;
      var e :| e in front && e.run == Some(ids[a]);
      var p :| 0 <= p < |front| && front[p] == e;
      assert forall k :: 0 <= k <= p ==> front[k] in front && events[k] == front[k];
    }
  }

  lemma {:induction false} SummariesAt(ids: seq<string>, events: seq<Event>, k: nat)
    requires k < |ids|
    ensures |Summaries(ids, events)| == |ids| && Summaries(ids, events)[k].runId == ids[k]
  {
    SummariesLength(ids, events);
    SummariesLength(ids[..|ids| - 1], events);
    if k < |ids| - 1 {
      SummariesAt(ids[..|ids| - 1], events, k);
    } else {
      SummaryTotals(ids[k], Filter(OfRun(ids[k]), events));
    }
  }

  lemma SummariesApart(events: seq<Event>)
    ensures Distinct(Summaries(RunIds(events), events))
    ensures forall a, b :: Precedes(Summaries(RunIds(events), events), a, b) ==> SeenBefore(events, a.runId, b.runId)
  {
    var ids, all := RunIds(events), Summaries(RunIds(events), events);
    RunIdsMeaning(events);
    SummariesLength(ids, events);
    forall a, b | 0 <= a < b < |all|
      ensures all[a] != all[b] && SeenBefore(events, all[a].runId, all[b].runId)
    {
      SummariesAt(ids, events, a);
      SummariesAt(ids, events, b);
      RunIdsInOrder(events, a, b);
    }
  }

  lemma NewerFirstIsTotal()
    ensures TotalPreorder(NewerFirst)
  {
  }

  /** The latest touched runs come first, and of runs touched at one time the first to appear. */
  lemma RunListInOrder(events: seq<Event>, filter: Option<RunState>, a: nat, b: nat)
    requires a < b < |RunList(events, filter)|
    ensures var runs := RunList(events, filter);
            || runs[a].updatedAt > runs[b].updatedAt
            || (runs[a].updatedAt == runs[b].updatedAt && SeenBefore(events, runs[a].runId, runs[b].runId))
  {
    var all := Summaries(RunIds(events), events);
    var sorted, runs := Sort(NewerFirst, all), RunList(events, filter);
    SummariesApart(events);
    NewerFirstIsTotal();
    SortKeepsDistinct(NewerFirst, all);
    FilterDistinct(InState(filter), sorted);
    DistinctPrecedes(runs, a, b);
    FilterPrecedes(InState(filter), sorted, runs[a], runs[b]);
    PrecedesMember(sorted, runs[a], runs[b]);
    SortMember(NewerFirst, all, runs[a]);
    SortMember(NewerFirst, all, runs[b]);
    SortPlaces(NewerFirst, all, runs[a], runs[b]);
  }

  function HasState(state: RunState): Summary -> bool { (s: Summary) => s.state == state }

  /** A filtered list is the unfiltered one without the entries of other states. */
  lemma RunListOfState(events: seq<Event>, state: RunState)
    ensures RunList(events, Some(state)) == Filter(HasState(state), RunList(events, None))
    ensures forall s :: s in RunList(events, Some(state)) <==> s in RunList(events, None) && s.state == state
  {
    var sorted := Sort(NewerFirst, Summaries(RunIds(events), events));
    FilterAllOrNone(InState(None), sorted);
    FilterAgree(InState(Some(state)), HasState(state), sorted);
    forall s ensures s in Filter(HasState(state), sorted) <==> s in sorted && s.state == state {
      FilterMember(HasState(state), sorted, s);
    }
  }

  function HasRun(): Event -> bool { (e: Event) => e.run.Some? }

  function EventTotal(runs: seq<Summary>): nat {
    if runs == [] then 0 else EventTotal(runs[..|runs| - 1]) + runs[|runs| - 1].eventCount
  }

  function InRuns(ids: seq<string>): Event -> bool { (e: Event) => e.run.Some? && e.run.value in ids }

  lemma {:induction false} SplitRuns(ids: seq<string>, r: string, events: seq<Event>)
    requires r !in ids
    ensures |Filter(InRuns(ids + [r]), events)| == |Filter(InRuns(ids), events)| + |Filter(OfRun(r), events)|
  {
    if events == [] {
    } else {
      SplitRuns(ids, r, events[1..]);
    }
  }

  lemma {:induction false} GroupsAddUp(ids: seq<string>, events: seq<Event>)
    requires Distinct(ids)
    ensures EventTotal(Summaries(ids, events)) == |Filter(InRuns(ids), events)|
  {
    if ids == [] {
      FilterAllOrNone(InRuns(ids), events);
    } else {
      var front, r := ids[..|ids| - 1], ids[|ids| - 1];
      assert ids == front + [r];
      GroupsAddUp(front, events);
      SplitRuns(front, r, events);
      SummaryMeaning(r, Filter(OfRun(r), events));
      var all := Summaries(ids, events);
      assert all[..|all| - 1] == Summaries(front, events);
    }
  }

  lemma {:induction false} EventTotalConcat(a: seq<Summary>, b: seq<Summary>)
    ensures EventTotal(a + b) == EventTotal(a) + EventTotal(b)
  {
    if b == [] {
      assert a + b == a;
    } else {
      assert (a + b)[..|a + b| - 1] == a + b[..|b| - 1];
      EventTotalConcat(a, b[..|b| - 1]);
    }
  }

  lemma {:induction false} EventTotalOfInsert(x: Summary, s: seq<Summary>)
    ensures EventTotal(Insert(NewerFirst, x, s)) == EventTotal(s) + x.eventCount
  {
    EventTotalConcat([x], s);
    if s == [] || NewerFirst(x, s[0]) {
    } else {
      EventTotalOfInsert(x, s[1..]);
      EventTotalConcat([s[0]], Insert(NewerFirst, x, s[1..]));
      EventTotalConcat([s[0]], s[1..]);
      assert s == [s[0]] + s[1..];
    }
  }

  lemma {:induction false} EventTotalOfSort(s: seq<Summary>)
    ensures EventTotal(Sort(NewerFirst, s)) == EventTotal(s)
  {
    if s == [] {
    } else {
      EventTotalOfSort(s[1..]);
      EventTotalOfInsert(s[0], Sort(NewerFirst, s[1..]));
      EventTotalConcat([s[0]], s[1..]);
      assert s == [s[0]] + s[1..];
    }
  }

  /** Grouping conserves the journal: the event counts of the list add up to the events with a run. */
  lemma RunListConserves(events: seq<Event>)
    ensures EventTotal(RunList(events, None)) == |Filter(HasRun(), events)|
  {
    var ids := RunIds(events);
    RunIdsMeaning(events);
    GroupsAddUp(ids, events);
    FilterAgree(InRuns(ids), HasRun(), events);
    FilterAllOrNone(InState(None), Sort(NewerFirst, Summaries(ids, events)));
    EventTotalOfSort(Summaries(ids, events));
  }

  // ---- Overview counts -----------------------------------------------------------------------

  function Live(): Summary -> bool { (s: Summary) => s.state == Created || s.state == Running }

  datatype Counts = Counts(live: nat, parked: nat, settled: nat)

  function CountRuns(runs: seq<Summary>): Counts {
    Counts(|Filter(Live(), runs)|, |Filter(InState(Some(Parked)), runs)|, |Filter(InState(Some(Settled)), runs)|)
  }

  /** What the overview counts. */
  lemma CountsMeaning(runs: seq<Summary>)
    ensures var c := CountRuns(runs);
            && c.live == |set k | 0 <= k < |runs| && (runs[k].state == Created || runs[k].state == Running)|
            && c.parked == |set k | 0 <= k < |runs| && runs[k].state == Parked|
            && c.settled == |set k | 0 <= k < |runs| && runs[k].state == Settled|
  {
    FilterCount(Live(), runs, set k | 0 <= k < |runs| && (runs[k].state == Created || runs[k].state == Running));
    FilterCount(InState(Some(Parked)), runs, set k | 0 <= k < |runs| && runs[k].state == Parked);
    FilterCount(InState(Some(Settled)), runs, set k | 0 <= k < |runs| && runs[k].state == Settled);
  }

  /** The overview's three counts leave out exactly the approved runs waiting to resume. */
  lemma {:induction false} CountsPartition(runs: seq<Summary>)
    ensures var c := CountRuns(runs);
            c.live + c.parked + c.settled + |Filter(InState(Some(ApprovedPendingResume)), runs)| == |runs|
  {
    if runs == [] {
    } else {
      CountsPartition(runs[1..]);
    }
  }
}
