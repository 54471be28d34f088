/** Projections folded from the journal (packages/kernel/src/agentx_kernel/projections.py) and what
    replaying the journal over them does. */
module Projections {
  import opened Sequences
  import opened Journal
  import opened Wrappers

  datatype Collection = Heap | Trace | Watch | Billing | Resume | Thread

  datatype Key = Key(coll: Collection, id: string)

  datatype Doc =
    | HeapDoc(fact: Fact, promoted: bool)
    | TraceDoc(syscall: string, status: Option<string>, source: string, seqNo: nat, ts: int)
    | WatchDoc(run: Option<string>, inst: string, condition: string, deadline: int, outcome: Option<string>)
    | BillingDoc(billedRun: Option<string>, billedInst: string, amount: real, billedAt: int)
    | ResumeDoc(ring: string, trust: int, streak: nat, settled: nat, updatedAt: int)
    | ThreadDoc(owner: string, entity: string, engagedAt: int)

  type Docs = map<Key, Doc>

  function Lookup(docs: Docs, k: Key): Option<Doc> { if k in docs then Some(docs[k]) else None }

  /** One write a projector makes for an event. All but the last two overwrite what they touch. */
  datatype Write =
    | Put(key: Key, doc: Doc)
    | Promote(key: Key)
    | Fire(key: Key, firedOutcome: string)
    | Settle(key: Key, delta: int, at: int)
    | SetRing(key: Key, newRing: string, at: int)

  const FRESH := ResumeDoc("L0", 0, 0, 0, 0)

  function ResumeOr(prior: Option<Doc>): (d: Doc)
    ensures d.ResumeDoc?
  {
    if prior.Some? && prior.value.ResumeDoc? then prior.value else FRESH
  }

  /** The document a write leaves at its key, given the one it finds. */
  function Revise(w: Write, prior: Option<Doc>): Option<Doc> {
    match w
    case Put(_, doc) => Some(doc)
    case Promote(_) => if prior.Some? && prior.value.HeapDoc? then Some(prior.value.(promoted := true)) else prior
    case Fire(_, o) => if prior.Some? && prior.value.WatchDoc? then Some(prior.value.(outcome := Some(o))) else prior
    case Settle(_, delta, at) =>
      var p := ResumeOr(prior);
      Some(ResumeDoc(p.ring, p.trust + delta,
                     if delta > 0 then p.streak + 1 else if delta < 0 then 0 else p.streak, p.settled + 1, at))
    case SetRing(_, ring, at) =>
      var p := ResumeOr(prior);
      Some(ResumeDoc(ring, p.trust, p.streak, p.settled, at))
  }

  function Commit(docs: Docs, w: Write): Docs {
    match Revise(w, Lookup(docs, w.key))
    case None => docs
    case Some(d) => docs[w.key := d]
  }

  function CommitAll(docs: Docs, ws: seq<Write>): Docs {
    if ws == [] then docs else Commit(CommitAll(docs, ws[..|ws| - 1]), ws[|ws| - 1])
  }

  function PutFacts(facts: seq<Fact>): seq<Write> {
    seq(|facts|, k requires 0 <= k < |facts| => Put(Key(Heap, facts[k].id), HeapDoc(facts[k], false)))
  }

  function PromoteFacts(ids: seq<string>): seq<Write> {
    seq(|ids|, k requires 0 <= k < |ids| => Promote(Key(Heap, ids[k])))
  }

  /** `event.run_id or event.event_id`: an empty run id counts as none. */
  function BillingId(e: Event): string {
    if e.run.Some? && e.run.value != "" then e.run.value else e.id
  }

  function ThreadId(inst: string, entity: string): string { inst + ":" + entity }

  function PutBill(e: Event, billing: Option<real>): seq<Write> {
    if billing.None? then [] else
      [Put(Key(Billing, BillingId(e)), BillingDoc(e.run, e.inst, billing.value, e.ts))]
  }

  /** The writes of all six projectors for one event, in fan-out order. */
  function Writes(e: Event): seq<Write> {
    match e.body
    case RunSettled(facts, billing, delta) =>
      PutFacts(facts) + PutBill(e, billing) + [Settle(Key(Resume, e.inst), delta, e.ts)]
    case DeferredSettled(ids) => PromoteFacts(ids)
    case SyscallAttempted(name) => [Put(Key(Trace, e.id), TraceDoc(name, None, e.inst, e.seqNo, e.ts))]
    case SyscallSettled(name, status) => [Put(Key(Trace, e.id), TraceDoc(name, Some(status), e.inst, e.seqNo, e.ts))]
    case WatchRegistered(id, condition, deadline) =>
      [Put(Key(Watch, id), WatchDoc(e.run, e.inst, condition, deadline, None))]
    case WatchFired(id, outcome) => [Fire(Key(Watch, id), outcome)]
    case ManagerAction(action, ring) =>
      if action == "set_ring" && ring.Some? then [SetRing(Key(Resume, e.inst), ring.value, e.ts)] else []
    case RunCreated(_, _, entity) =>
      if entity.None? then [] else
        [Put(Key(Thread, ThreadId(e.inst, entity.value)), ThreadDoc(e.inst, entity.value, e.ts))]
    case _ => []
  }

  function AllWrites(log: seq<Event>): seq<Write> {
    if log == [] then [] else AllWrites(log[..|log| - 1]) + Writes(log[|log| - 1])
  }

  /** Applying the events of a log one after another; `rebuild` does this with an instance's log. */
  function Replay(docs: Docs, log: seq<Event>): Docs { CommitAll(docs, AllWrites(log)) }

  lemma CommitSnoc(docs: Docs, ws: seq<Write>, w: Write)
    ensures CommitAll(docs, ws + [w]) == Commit(CommitAll(docs, ws), w)
  {
    assert (ws + [w])[..|ws + [w]| - 1] == ws;
  }

  lemma {:induction false} CommitConcat(docs: Docs, a: seq<Write>, b: seq<Write>)
    ensures CommitAll(docs, a + b) == CommitAll(CommitAll(docs, a), b)
  {
    if b == [] {
      assert a + b == a;
    } else {
      assert (a + b)[..|a + b| - 1] == a + b[..|b| - 1];
      CommitConcat(docs, a, b[..|b| - 1]);
    }
  }

  /** The projection store, updated in place. */
  class ProjectionStore {
    var docs: Docs

    constructor ()
      ensures docs == map[]
    {
      docs := map[];
    }

    method Upsert(k: Key, d: Doc)
      modifies this
      ensures docs == old(docs)[k := d]
    {
      docs := docs[k := d];
    }

    method ApplyHeap(e: Event)
      modifies this
      ensures docs == CommitAll(old(docs), if e.body.RunSettled? then PutFacts(e.body.facts)
                                           else if e.body.DeferredSettled? then PromoteFacts(e.body.promoted) else [])
    {
      if e.body.RunSettled? {
        var facts := e.body.facts;
        for k := 0 to |facts|
          invariant docs == CommitAll(old(docs), PutFacts(facts)[..k])
        {
          assert PutFacts(facts)[..k + 1][..k] == PutFacts(facts)[..k];
          Upsert(Key(Heap, facts[k].id), HeapDoc(facts[k], false));
        }
        assert PutFacts(facts)[..|facts|] == PutFacts(facts);
      } else if e.body.DeferredSettled? {
        var ids := e.body.promoted;
        for k := 0 to |ids|
          invariant docs == CommitAll(old(docs), PromoteFacts(ids)[..k])
        {
          assert PromoteFacts(ids)[..k + 1][..k] == PromoteFacts(ids)[..k];
          var key := Key(Heap, ids[k]);
          assert key in docs ==> docs[key := docs[key]] == docs;
          if key in docs && docs[key].HeapDoc? { Upsert(key, docs[key].(promoted := true)); }
        }
        assert PromoteFacts(ids)[..|ids|] == PromoteFacts(ids);
      }
    }

    method ApplyResume(e: Event)
      modifies this
      ensures docs == if e.body.RunSettled? then Commit(old(docs), Settle(Key(Resume, e.inst), e.body.trustDelta, e.ts))
                      else if e.body.ManagerAction? && e.body.action == "set_ring" && e.body.ring.Some?
                      then Commit(old(docs), SetRing(Key(Resume, e.inst), e.body.ring.value, e.ts)) else old(docs)
    {
      var key := Key(Resume, e.inst);
      var prior := if key in docs && docs[key].ResumeDoc? then docs[key] else FRESH;
      match e.body {
        case RunSettled(_, _, delta) =>
          var streak := if delta > 0 then prior.streak + 1 else if delta < 0 then 0 else prior.streak;
          Upsert(key, ResumeDoc(prior.ring, prior.trust + delta, streak, prior.settled + 1, e.ts));
        case ManagerAction(action, ring) =>
          if action == "set_ring" && ring.Some? {
            Upsert(key, ResumeDoc(ring.value, prior.trust, prior.streak, prior.settled, e.ts));
          }
        case _ =>
      }
    }

    /** The fan-out: heap, trace, watch, billing, resume, thread. */
    method Apply(e: Event)
      modifies this
      ensures docs == CommitAll(old(docs), Writes(e))
    {
      ghost var start := docs;
      ApplyHeap(e);
      match e.body {
        case SyscallAttempted(name) => Upsert(Key(Trace, e.id), TraceDoc(name, None, e.inst, e.seqNo, e.ts));
        case SyscallSettled(name, status) =>
          Upsert(Key(Trace, e.id), TraceDoc(name, Some(status), e.inst, e.seqNo, e.ts));
        case WatchRegistered(id, condition, deadline) =>
          Upsert(Key(Watch, id), WatchDoc(e.run, e.inst, condition, deadline, None));
        case WatchFired(id, outcome) =>
          var key := Key(Watch, id);
          assert key in docs ==> docs[key := docs[key]] == docs;
          if key in docs && docs[key].WatchDoc? { Upsert(key, docs[key].(outcome := Some(outcome))); }
        case RunSettled(facts, billing, delta) =>
          if billing.Some? { Upsert(Key(Billing, BillingId(e)), BillingDoc(e.run, e.inst, billing.value, e.ts)); }
          CommitConcat(start, PutFacts(facts), PutBill(e, billing));
          CommitSnoc(start, Writes(e)[..|Writes(e)| - 1], Writes(e)[|Writes(e)| - 1]);
        case _ =>
      }
      ApplyResume(e);
      match e.body {
        case RunCreated(_, _, entity) =>
          if entity.Some? {
            Upsert(Key(Thread, ThreadId(e.inst, entity.value)), ThreadDoc(e.inst, entity.value, e.ts));
          }
        case _ =>
      }
    }

    /** `rebuild`, given the instance's log. */
    method Rebuild(log: seq<Event>)
      modifies this
      ensures docs == Replay(old(docs), log)
    {
      for k := 0 to |log|
        invariant docs == Replay(old(docs), log[..k])
      {
        assert log[..k + 1][..k] == log[..k];
        CommitConcat(old(docs), AllWrites(log[..k]), Writes(log[k]));
        Apply(log[k]);
      }
      assert log[..|log|] == log;
    }
  }

  // ---- A document depends only on the writes to its key ---------------------------------------

  function On(k: Key): Write -> bool { (w: Write) => w.key == k }

  function ReviseAll(ws: seq<Write>, prior: Option<Doc>): Option<Doc> {
    if ws == [] then prior else Revise(ws[|ws| - 1], ReviseAll(ws[..|ws| - 1], prior))
  }

  lemma ReviseSnoc(ws: seq<Write>, w: Write, prior: Option<Doc>)
    ensures ReviseAll(ws + [w], prior) == Revise(w, ReviseAll(ws, prior))
  {
    assert (ws + [w])[..|ws + [w]| - 1] == ws;
  }

  lemma {:induction false} CommitIsLocal(docs: Docs, ws: seq<Write>, k: Key)
    ensures Lookup(CommitAll(docs, ws), k) == ReviseAll(Filter(On(k), ws), Lookup(docs, k))
  {
    if ws == [] {
    } else {
      var front, last := ws[..|ws| - 1], ws[|ws| - 1];
      assert ws == front + [last];
      CommitIsLocal(docs, front, k);
      FilterSnoc(On(k), front, last);
      ReviseSnoc(Filter(On(k), front), last, Lookup(docs, k));
    }
  }

  ghost predicate Touches(e: Event, k: Key) { exists w :: w in Writes(e) && w.key == k }

  lemma AllWritesSnoc(k: Key, log: seq<Event>, e: Event)
    ensures Filter(On(k), AllWrites(log + [e])) == Filter(On(k), AllWrites(log)) + Filter(On(k), Writes(e))
  {
    assert (log + [e])[..|log + [e]| - 1] == log;
    FilterConcat(On(k), AllWrites(log), Writes(e));
  }

  /** All events writing to `k` belong to instance `i`. */
  ghost predicate OwnedBy(j: seq<Event>, k: Key, i: string) {
    forall e :: e in j && Touches(e, k) ==> e.inst == i
  }

  lemma {:induction false} OwnedWrites(j: seq<Event>, k: Key, i: string)
    requires OwnedBy(j, k, i)
    ensures Filter(On(k), AllWrites(Log(j, i))) == Filter(On(k), AllWrites(j))
  {
    if j == [] {
    } else {
      var front, last := j[..|j| - 1], j[|j| - 1];
      assert j == front + [last];
      OwnedWrites(front, k, i);
      FilterSnoc(OfInstance(i), front, last);
      AllWritesSnoc(k, front, last);
      if last.inst == i {
        AllWritesSnoc(k, Log(front, i), last);
      } else {
        assert last in j && !Touches(last, k);
        FilterAllOrNone(On(k), Writes(last));
      }
    }
  }

  /** A rebuild from nothing reconstructs what the live, interleaved fan-out built, at every key
      only this instance writes. */
  lemma RebuildReconstructs(j: seq<Event>, i: string, k: Key)
    requires OwnedBy(j, k, i)
    ensures Lookup(Replay(map[], Log(j, i)), k) == Lookup(Replay(map[], j), k)
  {
    OwnedWrites(j, k, i);
    CommitIsLocal(map[], AllWrites(Log(j, i)), k);
    CommitIsLocal(map[], AllWrites(j), k);
  }

  // ---- Replaying over a live store -----------------------------------------------------------

  predicate FitsCollection(w: Write) {
    match w
    case Put(k, _) => k.coll != Resume
    case Promote(k) => k.coll == Heap
    case Fire(k, _) => k.coll == Watch
    case Settle(k, _, _) => k.coll == Resume
    case SetRing(k, _, _) => k.coll == Resume
  }

  lemma EventWritesFit(e: Event)
    ensures forall w :: w in Writes(e) ==> FitsCollection(w)
  {
  }

  lemma {:induction false} AllWritesFit(log: seq<Event>)
    ensures forall w :: w in AllWrites(log) ==> FitsCollection(w)
  {
    if log == [] {
    } else {
      AllWritesFit(log[..|log| - 1]);
      EventWritesFit(log[|log| - 1]);
    }
  }

  lemma WritesFit(log: seq<Event>, k: Key)
    ensures forall w :: w in Filter(On(k), AllWrites(log)) ==> FitsCollection(w) && w.key == k
  {
    AllWritesFit(log);
    forall w | w in Filter(On(k), AllWrites(log)) ensures FitsCollection(w) && w.key == k {
      FilterMember(On(k), AllWrites(log), w);
    }
  }

  /** What the last write finds: the document of the last `Put` before or at it, or the prior one. */
  function Base(ws: seq<Write>, prior: Option<Doc>): Option<Doc> {
    if ws == [] then prior
    else if ws[|ws| - 1].Put? then Some(ws[|ws| - 1].doc)
    else Base(ws[..|ws| - 1], prior)
  }

  /** A patch of a patched document shows alone. */
  lemma PatchTwice(k: Key, a: Write, b: Write, prior: Option<Doc>)
    requires k.coll != Resume && FitsCollection(a) && FitsCollection(b) && a.key == k && b.key == k && !b.Put?
    ensures Revise(b, Revise(a, prior)) == if a.Put? then Revise(b, Some(a.doc)) else Revise(b, prior)
  {
  }

  /** Outside the résumé only the last `Put` and the last write show. */
  lemma {:induction false} LastWriteDecides(ws: seq<Write>, k: Key, prior: Option<Doc>)
    requires k.coll != Resume && forall w :: w in ws ==> FitsCollection(w) && w.key == k
    ensures ReviseAll(ws, prior) == if ws == [] then prior else Revise(ws[|ws| - 1], Base(ws, prior))
  {
    if ws == [] {
    } else {
      var front, last := ws[..|ws| - 1], ws[|ws| - 1];
      assert ws == front + [last];
      LastWriteDecides(front, k, prior);
      if front != [] && !last.Put? { PatchTwice(k, front[|front| - 1], last, Base(front, prior)); }
    }
  }

  /** What `Base` finds does not depend on the prior document, or is the prior document. */
  lemma {:induction false} BaseForgets(ws: seq<Write>, a: Option<Doc>, b: Option<Doc>)
    ensures Base(ws, a) == Base(ws, b) || (Base(ws, a) == a && Base(ws, b) == b)
  {
    if ws == [] {
    } else {
      BaseForgets(ws[..|ws| - 1], a, b);
    }
  }

  lemma ReviseTwice(ws: seq<Write>, k: Key, prior: Option<Doc>)
    requires k.coll != Resume && forall w :: w in ws ==> FitsCollection(w) && w.key == k
    ensures ReviseAll(ws, ReviseAll(ws, prior)) == ReviseAll(ws, prior)
  {
    var once := ReviseAll(ws, prior);
    LastWriteDecides(ws, k, prior);
    LastWriteDecides(ws, k, once);
    BaseForgets(ws, prior, once);
    if ws != [] && !ws[|ws| - 1].Put? { PatchTwice(k, ws[|ws| - 1], ws[|ws| - 1], prior); }
  }

  /** Convergence: rebuilding an instance over the live store changes no heap, trace, watch,
      billing or thread document the instance owns. */
  lemma RebuildConverges(docs: Docs, j: seq<Event>, i: string, k: Key)
    requires k.coll != Resume && OwnedBy(j, k, i)
    ensures Lookup(Replay(Replay(docs, j), Log(j, i)), k) == Lookup(Replay(docs, j), k)
  {
    var live, ws := Replay(docs, j), Filter(On(k), AllWrites(j));
    OwnedWrites(j, k, i);
    CommitIsLocal(live, AllWrites(Log(j, i)), k);
    CommitIsLocal(docs, AllWrites(j), k);
    WritesFit(j, k);
    ReviseTwice(ws, k, Lookup(docs, k));
  }

  /** The collections whose every write overwrites the whole document. */
  predicate Overwritten(c: Collection) { c == Trace || c == Billing || c == Thread }

  lemma WritesKeepIff(ws: seq<Write>, k: Key, live: Option<Doc>)
    requires k.coll != Resume && forall w :: w in ws ==> FitsCollection(w) && w.key == k
    ensures ReviseAll(ws, live) == live <==> ws == [] || Revise(ws[|ws| - 1], Base(ws, live)) == live
    ensures Overwritten(k.coll) && ws != [] ==>
              ws[|ws| - 1].Put? && (ReviseAll(ws, live) == live <==> live == Some(ws[|ws| - 1].doc))
  {
    LastWriteDecides(ws, k, live);
    if ws != [] { assert ws[|ws| - 1] in ws; }
  }

  /** At any key outside the résumé, shared with other instances or not: a rebuild over the live store
      keeps the document if and only if the instance never wrote there, or its last write, on what its
      own last `Put` left or else on the live document, gives the live document again. Where writes
      overwrite, that is: its last write left the same document. */
  lemma RebuildKeepsIff(docs: Docs, j: seq<Event>, i: string, k: Key)
    requires k.coll != Resume
    ensures var live, ws := Replay(docs, j), Filter(On(k), AllWrites(Log(j, i)));
            var kept := Lookup(Replay(live, Log(j, i)), k) == Lookup(live, k);
            && (kept <==> ws == [] || Revise(ws[|ws| - 1], Base(ws, Lookup(live, k))) == Lookup(live, k))
            && (Overwritten(k.coll) && ws != [] ==>
                  ws[|ws| - 1].Put? && (kept <==> Lookup(live, k) == Some(ws[|ws| - 1].doc)))
  {
    var live, ws := Replay(docs, j), Filter(On(k), AllWrites(Log(j, i)));
    CommitIsLocal(live, AllWrites(Log(j, i)), k);
    WritesFit(Log(j, i), k);
    WritesKeepIff(ws, k, Lookup(live, k));
  }

  function Engaged(inst: string, entity: string): Event {
    Event("e", 1, 0, inst, None, None, RunCreated("t", "manual", Some(entity)))
  }

  lemma TwoEngagements()
    ensures var j, k := [Engaged("a:b", "c"), Engaged("a", "b:c")], Key(Thread, "a:b:c");
            && AllWrites(j) == [Put(k, ThreadDoc("a:b", "c", 0)), Put(k, ThreadDoc("a", "b:c", 0))]
            && AllWrites(Log(j, "a:b")) == [Put(k, ThreadDoc("a:b", "c", 0))]
  {
    var c, d := Engaged("a:b", "c"), Engaged("a", "b:c");
    assert "a:b" + ":" + "c" == "a:b:c" && "a" + ":" + "b:c" == "a:b:c";
    FilterPair(OfInstance("a:b"), c, d);
    assert [c, d][..1] == [c] && [c][..0] == [];
  }

  /** Instances `a:b` and `a` share a thread key: rebuilding the first over the live store takes the
      document from the second. */
  lemma SharedThreadChangesHands()
    ensures var j, k := [Engaged("a:b", "c"), Engaged("a", "b:c")], Key(Thread, ThreadId("a:b", "c"));
            && Lookup(Replay(map[], j), k) == Some(ThreadDoc("a", "b:c", 0))
            && Lookup(Replay(Replay(map[], j), Log(j, "a:b")), k) == Some(ThreadDoc("a:b", "c", 0))
  {
    var k := Key(Thread, "a:b:c");
    var p, q := Put(k, ThreadDoc("a:b", "c", 0)), Put(k, ThreadDoc("a", "b:c", 0));
    assert ThreadId("a:b", "c") == "a:b:c";
    TwoEngagements();
    CommitSnoc(map[], [p], q);
    CommitSnoc(Commit(Commit(map[], p), q), [], p);
    assert [p] + [q] == [p, q] && [] + [p] == [p];
  }

  // ---- The résumé does not converge ----------------------------------------------------------

  function SettleCount(ws: seq<Write>): nat {
    if ws == [] then 0 else SettleCount(ws[..|ws| - 1]) + if ws[|ws| - 1].Settle? then 1 else 0
  }

  function DeltaSum(ws: seq<Write>): int {
    if ws == [] then 0 else DeltaSum(ws[..|ws| - 1]) + if ws[|ws| - 1].Settle? then ws[|ws| - 1].delta else 0
  }

  lemma {:induction false} ResumeAccumulates(ws: seq<Write>, k: Key, prior: Option<Doc>)
    requires k.coll == Resume && forall w :: w in ws ==> FitsCollection(w) && w.key == k
    ensures var d := ResumeOr(ReviseAll(ws, prior));
            d.settled == ResumeOr(prior).settled + SettleCount(ws) && d.trust == ResumeOr(prior).trust + DeltaSum(ws)
    ensures ws != [] && SettleCount(ws) == 0 ==> ReviseAll(ws, prior) == Revise(ws[|ws| - 1], prior)
  {
    if ws == [] {
    } else {
      var front, last := ws[..|ws| - 1], ws[|ws| - 1];
      assert ws == front + [last];
      assert last in ws;
      ResumeAccumulates(front, k, prior);
      if front != [] { assert front[|front| - 1] in ws; }
    }
  }

  lemma CountsSnoc(ws: seq<Write>, w: Write)
    ensures SettleCount(ws + [w]) == SettleCount(ws) + if w.Settle? then 1 else 0
    ensures DeltaSum(ws + [w]) == DeltaSum(ws) + if w.Settle? then w.delta else 0
  {
    assert (ws + [w])[..|ws + [w]| - 1] == ws;
  }

  function Settlements(): Event -> bool { (e: Event) => e.body.RunSettled? }

  function TrustDeltas(log: seq<Event>): int {
    if log == [] then 0
    else TrustDeltas(log[..|log| - 1]) + if log[|log| - 1].body.RunSettled? then log[|log| - 1].body.trustDelta else 0
  }

  /** A settlement's writes outside the heap. */
  lemma SettledWrites(e: Event, k: Key)
    requires e.body.RunSettled? && k.coll != Heap
    ensures Filter(On(k), Writes(e)) == Filter(On(k), PutBill(e, e.body.billing)) +
              if k == Key(Resume, e.inst) then [Settle(k, e.body.trustDelta, e.ts)] else []
  {
    var facts, bill := PutFacts(e.body.facts), PutBill(e, e.body.billing);
    FilterSnoc(On(k), facts + bill, Settle(Key(Resume, e.inst), e.body.trustDelta, e.ts));
    FilterConcat(On(k), facts, bill);
    FilterAllOrNone(On(k), facts);
  }

  /** An event writes the résumé at most once: a settlement accumulates, a ring change overwrites. */
  lemma ResumeWrites(e: Event, i: string)
    requires e.inst == i
    ensures var t := Filter(On(Key(Resume, i)), Writes(e));
            if e.body.RunSettled? then t == [Settle(Key(Resume, i), e.body.trustDelta, e.ts)]
            else t == [] || (|t| == 1 && t[0].SetRing?)
  {
    var k := Key(Resume, i);
    match e.body
    case RunSettled(_, billing, _) =>
      SettledWrites(e, k);
      FilterAllOrNone(On(k), PutBill(e, billing));
    case DeferredSettled(ids) => FilterAllOrNone(On(k), Writes(e));
    case _ => FilterAtMostOne(On(k), Writes(e));
  }

  /** One event's résumé writes after `ws`. */
  lemma ResumeStep(ws: seq<Write>, e: Event, i: string)
    requires e.inst == i
    ensures var t := Filter(On(Key(Resume, i)), Writes(e));
            && SettleCount(ws + t) == SettleCount(ws) + (if e.body.RunSettled? then 1 else 0)
            && DeltaSum(ws + t) == DeltaSum(ws) + (if e.body.RunSettled? then e.body.trustDelta else 0)
  {
    ResumeWrites(e, i);
    var t := Filter(On(Key(Resume, i)), Writes(e));
    if t == [] {
      assert ws + t == ws;
    } else {
      assert t == [t[0]];
      CountsSnoc(ws, t[0]);
    }
  }

  lemma DeltasSnoc(log: seq<Event>, e: Event)
    ensures TrustDeltas(log + [e]) == TrustDeltas(log) + if e.body.RunSettled? then e.body.trustDelta else 0
  {
    assert (log + [e])[..|log + [e]| - 1] == log;
  }

  lemma {:induction false} SettlesAreSettlements(log: seq<Event>, i: string)
    requires forall e :: e in log ==> e.inst == i
    ensures var ws := Filter(On(Key(Resume, i)), AllWrites(log));
            SettleCount(ws) == |Filter(Settlements(), log)| && DeltaSum(ws) == TrustDeltas(log)
  {
    if log == [] {
    } else {
      var front, last := log[..|log| - 1], log[|log| - 1];
      assert log == front + [last] && last in log;
      SettlesAreSettlements(front, i);
      AllWritesSnoc(Key(Resume, i), front, last);
      ResumeStep(Filter(On(Key(Resume, i)), AllWrites(front)), last, i);
      FilterSnoc(Settlements(), front, last);
      DeltasSnoc(front, last);
    }
  }

  lemma ResumeKey(e: Event, w: Write)
    requires w in Writes(e) && w.key.coll == Resume
    ensures w.key.id == e.inst
  {
    match e.body
    case RunSettled(facts, billing, delta) =>
      var puts, settle := PutFacts(facts) + PutBill(e, billing), Settle(Key(Resume, e.inst), delta, e.ts);
      assert Writes(e) == puts + [settle];
      assert forall x :: x in puts ==> x.Put? && x.key.coll != Resume;
    case _ =>
  }

  lemma ResumeOwned(j: seq<Event>, i: string)
    ensures OwnedBy(j, Key(Resume, i), i)
  {
    forall e | e in j && Touches(e, Key(Resume, i)) ensures e.inst == i {
      var w :| w in Writes(e) && w.key == Key(Resume, i);
      ResumeKey(e, w);
    }
  }

  /** The documentation calls every projector an idempotent fold. The résumé's is not: rebuilding
      over the live store adds the instance's settlements and trust deltas a second time, so it
      changes nothing if and only if the instance has never settled a run. */
  lemma ResumeRebuildIffNeverSettled(docs: Docs, j: seq<Event>, i: string)
    ensures var k := Key(Resume, i);
            var before, after := Lookup(Replay(docs, j), k), Lookup(Replay(Replay(docs, j), Log(j, i)), k);
            && ResumeOr(after).settled == ResumeOr(before).settled + |Filter(Settlements(), Log(j, i))|
            && ResumeOr(after).trust == ResumeOr(before).trust + TrustDeltas(Log(j, i))
            && (after == before <==> Filter(Settlements(), Log(j, i)) == [])
  {
    var k, live, log := Key(Resume, i), Replay(docs, j), Log(j, i);
    var ws := Filter(On(k), AllWrites(log));
    ResumeOwned(j, i);
    OwnedWrites(j, k, i);
    CommitIsLocal(live, AllWrites(log), k);
    CommitIsLocal(docs, AllWrites(j), k);
    WritesFit(log, k);
    ResumeAccumulates(ws, k, Lookup(live, k));
    ResumeAccumulates(ws, k, Lookup(docs, k));
    forall e | e in log ensures e.inst == i { FilterMember(OfInstance(i), j, e); }
    SettlesAreSettlements(log, i);
    if ws != [] { assert ws[|ws| - 1] in ws; }
  }

  /** One settlement with a trust delta of 1, and a rebuild over the live store: settled twice. */
  lemma SettledTwice()
    ensures var j := [Event("e", 1, 7, "i", Some("r"), None, RunSettled([], None, 1))];
            var k := Key(Resume, "i");
            && Lookup(Replay(map[], j), k) == Some(ResumeDoc("L0", 1, 1, 1, 7))
            && Lookup(Replay(Replay(map[], j), Log(j, "i")), k) == Some(ResumeDoc("L0", 2, 2, 2, 7))
  {
    var e := Event("e", 1, 7, "i", Some("r"), None, RunSettled([], None, 1));
    var w := Settle(Key(Resume, "i"), 1, 7);
    FilterAtMostOne(OfInstance("i"), [e]);
    assert [e][..0] == [] && Writes(e) == [w] && [w][..0] == [];
  }

  // ---- Billing -------------------------------------------------------------------------------

  function Bills(id: string): Event -> bool {
    (e: Event) => e.body.RunSettled? && e.body.billing.Some? && BillingId(e) == id
  }

  /** The billing line a settlement leaves; `requires` a billed event. */
  function BillOf(e: Event): Doc
    requires e.body.RunSettled? && e.body.billing.Some?
  {
    BillingDoc(e.run, e.inst, e.body.billing.value, e.ts)
  }

  function LastBill(bills: seq<Event>): Option<Doc> {
    if bills == [] then None
    else var e := bills[|bills| - 1];
         if e.body.RunSettled? && e.body.billing.Some? then Some(BillOf(e)) else None
  }

  lemma OnlySettlementsBill(e: Event)
    requires !e.body.RunSettled?
    ensures forall w :: w in Writes(e) ==> w.key.coll != Billing
  {
  }

  lemma BillingWrites(e: Event, id: string)
    ensures Filter(On(Key(Billing, id)), Writes(e)) ==
            if Bills(id)(e) then [Put(Key(Billing, id), BillOf(e))] else []
  {
    var k := Key(Billing, id);
    if e.body.RunSettled? {
      SettledWrites(e, k);
      FilterAtMostOne(On(k), PutBill(e, e.body.billing));
    } else {
      OnlySettlementsBill(e);
      FilterAllOrNone(On(k), Writes(e));
    }
  }

  lemma {:induction false} BillingRevisions(j: seq<Event>, id: string)
    ensures ReviseAll(Filter(On(Key(Billing, id)), AllWrites(j)), None) == LastBill(Filter(Bills(id), j))
  {
    var k := Key(Billing, id);
    if j == [] {
    } else {
      var front, last := j[..|j| - 1], j[|j| - 1];
      assert j == front + [last];
      BillingRevisions(front, id);
      FilterSnoc(Bills(id), front, last);
      AllWritesSnoc(k, front, last);
      BillingWrites(last, id);
      var ws := Filter(On(k), AllWrites(front));
      if Bills(id)(last) {
        ReviseSnoc(ws, Put(k, BillOf(last)), None);
      } else {
        assert ws + [] == ws;
      }
    }
  }

  /** A run is billed once however often its settlement is journaled: its line is the last one's. */
  lemma BilledOnce(j: seq<Event>, id: string)
    ensures Lookup(Replay(map[], j), Key(Billing, id)) == LastBill(Filter(Bills(id), j))
  {
    CommitIsLocal(map[], AllWrites(j), Key(Billing, id));
    BillingRevisions(j, id);
  }
}
