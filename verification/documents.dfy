/** What the projected documents say, in terms of the events alone: for each collection, the document a
    replay of any log from nothing leaves (packages/kernel/src/agentx_kernel/projections.py). */
module Documents {
  import opened Sequences
  import opened Journal
  import opened Projections
  import opened Wrappers

  /** The document at a key after a log has been replayed into an empty store. */
  function After(log: seq<Event>, k: Key): Option<Doc> { Lookup(Replay(map[], log), k) }

  lemma {:induction false} ReviseConcat(a: seq<Write>, b: seq<Write>, prior: Option<Doc>)
    ensures ReviseAll(a + b, prior) == ReviseAll(b, ReviseAll(a, prior))
  {
    if b == [] {
      assert a + b == a;
    } else {
      assert (a + b)[..|a + b| - 1] == a + b[..|b| - 1];
      ReviseConcat(a, b[..|b| - 1], prior);
    }
  }

  /** One more event revises a document by its own writes to that key. */
  lemma AfterSnoc(log: seq<Event>, e: Event, k: Key)
    ensures After(log + [e], k) == ReviseAll(Filter(On(k), Writes(e)), After(log, k))
  {
    CommitIsLocal(map[], AllWrites(log + [e]), k);
    CommitIsLocal(map[], AllWrites(log), k);
    AllWritesSnoc(k, log, e);
    ReviseConcat(Filter(On(k), AllWrites(log)), Filter(On(k), Writes(e)), None);
  }

  lemma OneWrite(e: Event, k: Key, prior: Option<Doc>)
    requires |Writes(e)| <= 1
    ensures ReviseAll(Filter(On(k), Writes(e)), prior) ==
            if Writes(e) != [] && Writes(e)[0].key == k then Revise(Writes(e)[0], prior) else prior
  {
    FilterAtMostOne(On(k), Writes(e));
    assert Writes(e) != [] ==> Writes(e)[..0] == [];
  }

  // ---- Heap ----------------------------------------------------------------------------------

  function Names(id: string): Fact -> bool { (f: Fact) => f.id == id }
  function SettlesFact(id: string): Event -> bool {
    (e: Event) => e.body.RunSettled? && Filter(Names(id), e.body.facts) != []
  }
  function Promotes(id: string): Event -> bool { (e: Event) => e.body.DeferredSettled? && id in e.body.promoted }

  /** The last of a settlement's facts with the id. */
  function FactOf(facts: seq<Fact>, id: string): Fact
    requires Filter(Names(id), facts) != []
  {
    Filter(Names(id), facts)[|Filter(Names(id), facts)| - 1]
  }

  lemma {:induction false} FactsPut(facts: seq<Fact>, id: string, prior: Option<Doc>)
    ensures ReviseAll(Filter(On(Key(Heap, id)), PutFacts(facts)), prior) ==
            if Filter(Names(id), facts) == [] then prior else Some(HeapDoc(FactOf(facts, id), false))
  {
    if facts == [] {
    } else {
      var front, last := facts[..|facts| - 1], facts[|facts| - 1];
      var k, w := Key(Heap, id), Put(Key(Heap, last.id), HeapDoc(last, false));
      assert facts == front + [last] && PutFacts(facts) == PutFacts(front) + [w];
      FactsPut(front, id, prior);
      FilterSnoc(Names(id), front, last);
      FilterSnoc(On(k), PutFacts(front), w);
      if last.id == id { ReviseSnoc(Filter(On(k), PutFacts(front)), w, prior); }
    }
  }

  predicate OnHeap(prior: Option<Doc>) { prior.None? || prior.value.HeapDoc? }

  lemma {:induction false} FactsPromoted(ids: seq<string>, id: string, prior: Option<Doc>)
    requires OnHeap(prior)
    ensures ReviseAll(Filter(On(Key(Heap, id)), PromoteFacts(ids)), prior) ==
            if id in ids && prior.Some? then Some(HeapDoc(prior.value.fact, true)) else prior
  {
    if ids == [] {
    } else {
      var front, last := ids[..|ids| - 1], ids[|ids| - 1];
      var k, w := Key(Heap, id), Promote(Key(Heap, last));
      assert ids == front + [last] && PromoteFacts(ids) == PromoteFacts(front) + [w];
      FactsPromoted(front, id, prior);
      FilterSnoc(On(k), PromoteFacts(front), w);
      if last == id { ReviseSnoc(Filter(On(k), PromoteFacts(front)), w, prior); }
    }
  }

  lemma SettledHeap(e: Event, id: string)
    requires e.body.RunSettled?
    ensures Filter(On(Key(Heap, id)), Writes(e)) == Filter(On(Key(Heap, id)), PutFacts(e.body.facts))
  {
    var k, facts, bill := Key(Heap, id), PutFacts(e.body.facts), PutBill(e, e.body.billing);
    FilterSnoc(On(k), facts + bill, Settle(Key(Resume, e.inst), e.body.trustDelta, e.ts));
    FilterConcat(On(k), facts, bill);
    FilterAllOrNone(On(k), bill);
  }

  /** What one event does to a fact's document. */
  lemma HeapStep(e: Event, id: string, prior: Option<Doc>)
    requires OnHeap(prior)
    ensures ReviseAll(Filter(On(Key(Heap, id)), Writes(e)), prior) ==
            if SettlesFact(id)(e) then Some(HeapDoc(FactOf(e.body.facts, id), false))
            else if Promotes(id)(e) && prior.Some? then Some(HeapDoc(prior.value.fact, true))
            else prior
  {
    var k := Key(Heap, id);
    match e.body
    case RunSettled(facts, _, _) =>
      SettledHeap(e, id);
      FactsPut(facts, id, prior);
    case DeferredSettled(ids) => FactsPromoted(ids, id, prior);
    case _ => OneWrite(e, k, prior);
  }

  ghost predicate PromotedSince(log: seq<Event>, id: string, p: int) {
    exists q :: p < q < |log| && q >= 0 && Promotes(id)(log[q])
  }

  lemma PromotedSnoc(log: seq<Event>, e: Event, id: string, p: int)
    requires p < |log|
    ensures PromotedSince(log + [e], id, p) <==> PromotedSince(log, id, p) || Promotes(id)(e)
  {
    var all := log + [e];
    if q :| p < q < |log| && q >= 0 && Promotes(id)(log[q]) { assert Promotes(id)(all[q]); }
    if Promotes(id)(e) { assert Promotes(id)(all[|log|]) && p < |log| < |all|; }
  }

  /** The heap document of a fact: there is none before a settlement brings it; then it holds the fact of
      the last settlement bringing it, and is promoted if and only if a deferred settlement names it after
      that one. */
  lemma {:induction false} HeapMeaning(log: seq<Event>, id: string)
    ensures After(log, Key(Heap, id)) == None <==> forall e :: e in log ==> !SettlesFact(id)(e)
    ensures OnHeap(After(log, Key(Heap, id)))
    ensures forall p :: LastAt(SettlesFact(id), log, p) ==>
              After(log, Key(Heap, id)) == Some(HeapDoc(FactOf(log[p].body.facts, id), PromotedSince(log, id, p)))
  {
    if log == [] {
    } else {
      var front, e := log[..|log| - 1], log[|log| - 1];
      assert log == front + [e];
      HeapMeaning(front, id);
      AfterSnoc(front, e, Key(Heap, id));
      HeapStep(e, id, After(front, Key(Heap, id)));
      LastAtSnoc(SettlesFact(id), front, e);
      forall p | LastAt(SettlesFact(id), log, p)
        ensures After(log, Key(Heap, id)) == Some(HeapDoc(FactOf(log[p].body.facts, id), PromotedSince(log, id, p)))
      {
        if p < |front| { PromotedSnoc(front, e, id, p); }
      }
    }
  }

  // ---- Watch, trace, thread, billing ---------------------------------------------------------

  /** Outside heap and résumé an event writes a key at most once. */
  lemma WrittenOnce(e: Event, k: Key, prior: Option<Doc>)
    requires k.coll != Heap && k.coll != Resume
    ensures if e.body.RunSettled? then
              Filter(On(k), Writes(e)) == Filter(On(k), PutBill(e, e.body.billing))
            else if e.body.DeferredSettled? then Filter(On(k), Writes(e)) == []
            else |Writes(e)| <= 1
  {
    match e.body
    case RunSettled(_, _, _) => SettledWrites(e, k);
    case DeferredSettled(_) => FilterAllOrNone(On(k), Writes(e));
    case _ =>
  }

  lemma SingleStep(e: Event, k: Key, prior: Option<Doc>)
    requires k.coll == Watch || k.coll == Trace || k.coll == Thread
    ensures ReviseAll(Filter(On(k), Writes(e)), prior) ==
            if !e.body.RunSettled? && !e.body.DeferredSettled? && Writes(e) != [] && Writes(e)[0].key == k
            then Revise(Writes(e)[0], prior) else prior
  {
    WrittenOnce(e, k, prior);
    match e.body
    case RunSettled(_, billing, _) => FilterAllOrNone(On(k), PutBill(e, billing));
    case DeferredSettled(_) =>
    case _ => OneWrite(e, k, prior);
  }

  function Registers(id: string): Event -> bool { (e: Event) => e.body.WatchRegistered? && e.body.watchId == id }
  function Fires(id: string): Event -> bool { (e: Event) => e.body.WatchFired? && e.body.firedId == id }

  predicate OnWatch(prior: Option<Doc>) { prior.None? || prior.value.WatchDoc? }

  lemma WatchStep(e: Event, id: string, prior: Option<Doc>)
    requires OnWatch(prior)
    ensures ReviseAll(Filter(On(Key(Watch, id)), Writes(e)), prior) ==
            if Registers(id)(e) then Some(WatchDoc(e.run, e.inst, e.body.condition, e.body.deadline, None))
            else if Fires(id)(e) && prior.Some? then Some(prior.value.(outcome := Some(e.body.outcome)))
            else prior
  {
    SingleStep(e, Key(Watch, id), prior);
  }

  /** What a watch document says given its last registration: who registered what, and the outcome of the
      last firing since. */
  ghost predicate WatchSays(log: seq<Event>, id: string, p: int, d: Option<Doc>)
    requires LastAt(Registers(id), log, p)
  {
    var e := log[p];
    && d.Some? && d.value.WatchDoc?
    && d.value == WatchDoc(e.run, e.inst, e.body.condition, e.body.deadline, d.value.outcome)
    && (d.value.outcome == None <==> forall q :: p < q < |log| ==> !Fires(id)(log[q]))
    && forall q :: q > p && LastAt(Fires(id), log, q) ==> d.value.outcome == Some(log[q].body.outcome)
  }

  lemma WatchSaysSnoc(front: seq<Event>, e: Event, id: string, p: int, d: Option<Doc>)
    requires LastAt(Registers(id), front, p) && !Registers(id)(e) && WatchSays(front, id, p, d)
    ensures LastAt(Registers(id), front + [e], p)
    ensures WatchSays(front + [e], id, p,
                      if Fires(id)(e) then Some(d.value.(outcome := Some(e.body.outcome))) else d)
  {
    var log := front + [e];
    LastAtSnoc(Registers(id), front, e);
    LastAtSnoc(Fires(id), front, e);
    assert log[|front|] == e && forall q :: 0 <= q < |front| ==> log[q] == front[q];
  }

  /** The watch document: none before its registration; then as above. */
  lemma {:induction false} WatchMeaning(log: seq<Event>, id: string)
    ensures After(log, Key(Watch, id)) == None <==> forall e :: e in log ==> !Registers(id)(e)
    ensures OnWatch(After(log, Key(Watch, id)))
    ensures forall p :: LastAt(Registers(id), log, p) ==> WatchSays(log, id, p, After(log, Key(Watch, id)))
  {
    if log == [] {
    } else {
      var front, e := log[..|log| - 1], log[|log| - 1];
      assert log == front + [e];
      WatchMeaning(front, id);
      AfterSnoc(front, e, Key(Watch, id));
      WatchStep(e, id, After(front, Key(Watch, id)));
      LastAtSnoc(Registers(id), front, e);
      forall p | LastAt(Registers(id), log, p) ensures WatchSays(log, id, p, After(log, Key(Watch, id))) {
        if p < |front| { WatchSaysSnoc(front, e, id, p, After(front, Key(Watch, id))); }
      }
    }
  }

  /** The events satisfying `p`, and no others, overwrite the document at `k` with what they show. */
  ghost predicate Overwrites(p: Event -> bool, shows: Event -> Doc, k: Key) {
    forall e, prior :: ReviseAll(Filter(On(k), Writes(e)), prior) == if p(e) then Some(shows(e)) else prior
  }

  /** Such a document shows the last of them. */
  lemma {:induction false} LastOverwrites(log: seq<Event>, k: Key, p: Event -> bool, shows: Event -> Doc)
    requires Overwrites(p, shows, k)
    ensures After(log, k) == None <==> forall e :: e in log ==> !p(e)
    ensures forall n :: LastAt(p, log, n) ==> After(log, k) == Some(shows(log[n]))
  {
    if log == [] {
    } else {
      var front, e := log[..|log| - 1], log[|log| - 1];
      assert log == front + [e];
      LastOverwrites(front, k, p, shows);
      AfterSnoc(front, e, k);
      LastAtSnoc(p, front, e);
    }
  }

  function Traces(id: string): Event -> bool {
    (e: Event) => e.id == id && (e.body.SyscallAttempted? || e.body.SyscallSettled?)
  }
  function TraceOf(): Event -> Doc {
    (e: Event) => match e.body
                  case SyscallAttempted(name) => TraceDoc(name, None, e.inst, e.seqNo, e.ts)
                  case SyscallSettled(name, status) => TraceDoc(name, Some(status), e.inst, e.seqNo, e.ts)
                  case _ => FRESH
  }

  /** The trace document of an event id: the last system call under it, with a status once it settled. */
  lemma TraceMeaning(log: seq<Event>, id: string)
    ensures After(log, Key(Trace, id)) == None <==> forall e :: e in log ==> !Traces(id)(e)
    ensures forall n :: LastAt(Traces(id), log, n) ==> After(log, Key(Trace, id)) == Some(TraceOf()(log[n]))
  {
    var k := Key(Trace, id);
    forall e, prior
      ensures ReviseAll(Filter(On(k), Writes(e)), prior) == if Traces(id)(e) then Some(TraceOf()(e)) else prior
    {
      SingleStep(e, k, prior);
    }
    LastOverwrites(log, k, Traces(id), TraceOf());
  }

  function Engages(id: string): Event -> bool {
    (e: Event) => e.body.RunCreated? && e.body.entity.Some? && e.inst + ":" + e.body.entity.value == id
  }
  function ThreadOf(): Event -> Doc {
    (e: Event) => if e.body.RunCreated? && e.body.entity.Some? then ThreadDoc(e.inst, e.body.entity.value, e.ts)
                  else FRESH
  }

  /** The thread document: the last run created for the instance and entity that make up its id. */
  lemma ThreadMeaning(log: seq<Event>, id: string)
    ensures After(log, Key(Thread, id)) == None <==> forall e :: e in log ==> !Engages(id)(e)
    ensures forall n :: LastAt(Engages(id), log, n) ==> After(log, Key(Thread, id)) == Some(ThreadOf()(log[n]))
  {
    var k := Key(Thread, id);
    forall e, prior
      ensures ReviseAll(Filter(On(k), Writes(e)), prior) == if Engages(id)(e) then Some(ThreadOf()(e)) else prior
    {
      SingleStep(e, k, prior);
    }
    LastOverwrites(log, k, Engages(id), ThreadOf());
  }

  /** A billed settlement of the run, or one without a run id whose own id it is. */
  function BilledAs(id: string): Event -> bool {
    (e: Event) => e.body.RunSettled? && e.body.billing.Some?
                  && (if e.run.Some? && e.run != Some("") then e.run == Some(id) else e.id == id)
  }
  function LineOf(): Event -> Doc {
    (e: Event) => if e.body.RunSettled? && e.body.billing.Some? then
                    BillingDoc(e.run, e.inst, e.body.billing.value, e.ts) else FRESH
  }

  /** The billing line: the last billed settlement, so a run is billed once however often it settles. */
  lemma BillingMeaning(log: seq<Event>, id: string)
    ensures After(log, Key(Billing, id)) == None <==> forall e :: e in log ==> !BilledAs(id)(e)
    ensures forall n :: LastAt(BilledAs(id), log, n) ==> After(log, Key(Billing, id)) == Some(LineOf()(log[n]))
  {
    var k := Key(Billing, id);
    forall e, prior
      ensures ReviseAll(Filter(On(k), Writes(e)), prior) == if BilledAs(id)(e) then Some(LineOf()(e)) else prior
    {
      BillingWrites(e, id);
      if BilledAs(id)(e) {
        var w := Put(k, BillOf(e));
        assert [w][..0] == [];
      }
    }
    LastOverwrites(log, k, BilledAs(id), LineOf());
  }

  // ---- Résumé --------------------------------------------------------------------------------

  function SettlesFor(i: string): Event -> bool { (e: Event) => e.inst == i && e.body.RunSettled? }
  function SetsRing(i: string): Event -> bool {
    (e: Event) => e.inst == i && e.body.ManagerAction? && e.body.action == "set_ring" && e.body.ring.Some?
  }
  function Touching(i: string): Event -> bool { (e: Event) => SettlesFor(i)(e) || SetsRing(i)(e) }

  lemma ResumeWritten(e: Event, i: string)
    ensures Filter(On(Key(Resume, i)), Writes(e)) ==
            if SettlesFor(i)(e) then [Settle(Key(Resume, i), e.body.trustDelta, e.ts)]
            else if SetsRing(i)(e) then [SetRing(Key(Resume, i), e.body.ring.value, e.ts)]
            else []
  {
    var k := Key(Resume, i);
    match e.body
    case RunSettled(_, billing, _) =>
      SettledWrites(e, k);
      FilterAllOrNone(On(k), PutBill(e, billing));
    case DeferredSettled(_) => FilterAllOrNone(On(k), Writes(e));
    case _ => FilterAtMostOne(On(k), Writes(e));
  }

  /** What one event does to a résumé. */
  lemma RevisedResume(e: Event, i: string, prior: Option<Doc>)
    ensures var after, p := ReviseAll(Filter(On(Key(Resume, i)), Writes(e)), prior), ResumeOr(prior);
            if SettlesFor(i)(e) then
              var delta := e.body.trustDelta;
              after == Some(ResumeDoc(p.ring, p.trust + delta,
                                      if delta > 0 then p.streak + 1 else if delta < 0 then 0 else p.streak,
                                      p.settled + 1, e.ts))
            else if SetsRing(i)(e) then
              after == Some(ResumeDoc(e.body.ring.value, p.trust, p.streak, p.settled, e.ts))
            else after == prior
  {
    var ws := Filter(On(Key(Resume, i)), Writes(e));
    ResumeWritten(e, i);
    if ws != [] { assert ws == [ws[0]] && ws[..0] == []; }
  }

  /** The settlements since the last setback that raised the trust. */
  ghost function Raises(log: seq<Event>, i: string): set<int> {
    set n | 0 <= n < |log| && SettlesFor(i)(log[n]) && log[n].body.trustDelta > 0
            && forall m :: n < m < |log| && SettlesFor(i)(log[m]) ==> log[m].body.trustDelta >= 0
  }

  lemma RaisesSnoc(front: seq<Event>, e: Event, i: string)
    ensures Raises(front + [e], i) ==
            if !SettlesFor(i)(e) || e.body.trustDelta == 0 then Raises(front, i)
            else if e.body.trustDelta > 0 then Raises(front, i) + {|front|} else {}
  {
    var log := front + [e];
    assert log[|front|] == e && forall n :: 0 <= n < |front| ==> log[n] == front[n];
    forall n | n in Raises(front, i) && (!SettlesFor(i)(e) || e.body.trustDelta >= 0) ensures n in Raises(log, i) {}
    forall n | n in Raises(log, i) && n < |front| ensures n in Raises(front, i) {
      forall m | n < m < |front| && SettlesFor(i)(front[m]) ensures front[m].body.trustDelta >= 0 {
        assert SettlesFor(i)(log[m]);
      }
    }
  }

  predicate OnResume(prior: Option<Doc>) { prior.None? || prior.value.ResumeDoc? }

  /** The ring last set, `L0` before. */
  ghost predicate RingIs(log: seq<Event>, i: string, ring: string) {
    && (forall n :: LastAt(SetsRing(i), log, n) ==> ring == log[n].body.ring.value)
    && ((forall e :: e in log ==> !SetsRing(i)(e)) ==> ring == "L0")
  }

  lemma RingSnoc(front: seq<Event>, e: Event, i: string, ring: string)
    requires RingIs(front, i, ring)
    ensures RingIs(front + [e], i, if SetsRing(i)(e) then e.body.ring.value else ring)
  {
    LastAtSnoc(SetsRing(i), front, e);
    if forall x :: x in front + [e] ==> !SetsRing(i)(x) {
      assert e in front + [e] && forall x :: x in front ==> x in front + [e];
    }
  }

  /** All trust deltas added up, the raises since the last setback, and the number of settlements. */
  ghost predicate FiguresAre(log: seq<Event>, i: string, trust: int, streak: nat, settled: nat) {
    && trust == TrustDeltas(Log(log, i)) && streak == |Raises(log, i)| && settled == |Filter(SettlesFor(i), log)|
  }

  lemma FiguresSnoc(front: seq<Event>, e: Event, i: string, trust: int, streak: nat, settled: nat)
    requires FiguresAre(front, i, trust, streak, settled)
    ensures if SettlesFor(i)(e) then
              var delta := e.body.trustDelta;
              FiguresAre(front + [e], i, trust + delta,
                         if delta > 0 then streak + 1 else if delta < 0 then 0 else streak, settled + 1)
            else FiguresAre(front + [e], i, trust, streak, settled)
  {
    FilterSnoc(SettlesFor(i), front, e);
    FilterSnoc(OfInstance(i), front, e);
    if e.inst == i { DeltasSnoc(Log(front, i), e); }
    RaisesSnoc(front, e, i);
    assert |front| !in Raises(front, i);
  }

  ghost predicate TouchedAt(log: seq<Event>, i: string, at: int) {
    forall n :: LastAt(Touching(i), log, n) ==> at == log[n].ts
  }

  lemma TouchedSnoc(front: seq<Event>, e: Event, i: string, at: int)
    requires TouchedAt(front, i, at)
    ensures TouchedAt(front + [e], i, if Touching(i)(e) then e.ts else at)
  {
    LastAtSnoc(Touching(i), front, e);
  }

  /** What a résumé says: its ring, its figures, and when it was last touched. */
  ghost predicate ResumeSays(log: seq<Event>, i: string, d: Doc) {
    && d.ResumeDoc? && RingIs(log, i, d.ring) && FiguresAre(log, i, d.trust, d.streak, d.settled)
    && TouchedAt(log, i, d.updatedAt)
  }

  lemma ResumeSaysSnoc(front: seq<Event>, e: Event, i: string, prior: Option<Doc>)
    requires ResumeSays(front, i, ResumeOr(prior)) && OnResume(prior)
    ensures var after := ReviseAll(Filter(On(Key(Resume, i)), Writes(e)), prior);
            && OnResume(after) && ResumeSays(front + [e], i, ResumeOr(after))
            && (after == None <==> prior == None && !Touching(i)(e))
  {
    var d := ResumeOr(prior);
    RevisedResume(e, i, prior);
    RingSnoc(front, e, i, d.ring);
    FiguresSnoc(front, e, i, d.trust, d.streak, d.settled);
    TouchedSnoc(front, e, i, d.updatedAt);
  }

  /** The résumé: none before the instance settles or is given a ring; then as above. */
  lemma {:induction false} ResumeMeaning(log: seq<Event>, i: string)
    ensures After(log, Key(Resume, i)) == None <==> forall e :: e in log ==> !Touching(i)(e)
    ensures OnResume(After(log, Key(Resume, i))) && ResumeSays(log, i, ResumeOr(After(log, Key(Resume, i))))
  {
    if log == [] {
      assert Raises(log, i) == {};
    } else {
      var front, e := log[..|log| - 1], log[|log| - 1];
      assert log == front + [e];
      ResumeMeaning(front, i);
      AfterSnoc(front, e, Key(Resume, i));
      ResumeSaysSnoc(front, e, i, After(front, Key(Resume, i)));
    }
  }
}
