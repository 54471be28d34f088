/** The append-only journal: its events, the in-memory store, and what every reader relies on.
    Sources: packages/contracts/src/agentx_contracts/journal.py and
    packages/kernel/src/agentx_kernel/stores/memory.py. */
module Journal {
  import opened Sequences
  import opened Sorting
  import opened Wrappers

  datatype Fact = Fact(id: string, content: string)

  /** The discriminated part of an event, reduced to the fields some reader looks at. */
  datatype Body =
    | RunCreated(typeRef: string, triggerKind: string, entity: Option<string>)
    | RunSettled(facts: seq<Fact>, billing: Option<real>, trustDelta: int)
    | RunParked(reason: string, requiredRing: Option<string>)
    | ApprovalResolved(decision: string)
    | SyscallAttempted(attempted: string)
    | SyscallSettled(completed: string, status: string)
    | WatchRegistered(watchId: string, condition: string, deadline: int)
    | WatchFired(firedId: string, outcome: string)
    | DeferredSettled(promoted: seq<string>)
    | ManagerAction(action: string, ring: Option<string>)
    | OtherKind(name: string)

  datatype Event = Event(id: string, seqNo: nat, ts: int, inst: string, run: Option<string>,
                         idem: Option<string>, body: Body)

  function OfInstance(i: string): Event -> bool { (e: Event) => e.inst == i }
  function OfRun(r: string): Event -> bool { (e: Event) => e.run == Some(r) }

  /** The events of one instance, in append order. */
  function Log(j: seq<Event>, i: string): seq<Event> { Filter(OfInstance(i), j) }

  /** Sequence numbers are dense per instance: the n-th event appended to an instance carries n. */
  ghost predicate Dense(j: seq<Event>) {
    forall p :: 0 <= p < |j| ==> j[p].seqNo == |Log(j[..p], j[p].inst)| + 1
  }

  predicate KeyUsed(j: seq<Event>, e: Event) {
    e.idem.Some? && exists p :: 0 <= p < |j| && j[p].idem == e.idem
  }

  ghost predicate UniqueKeys(j: seq<Event>) {
    forall p :: 0 <= p < |j| ==> !KeyUsed(j[..p], j[p])
  }

  ghost predicate Valid(j: seq<Event>) { Dense(j) && UniqueKeys(j) }

  function Stamp(j: seq<Event>, e: Event): Event { e.(seqNo := |Log(j, e.inst)| + 1) }

  /** The specification of an append: refused exactly when its idempotency key is already there. */
  function AppendTo(j: seq<Event>, e: Event): Option<seq<Event>> {
    if KeyUsed(j, e) then None else Some(j + [Stamp(j, e)])
  }

  lemma KeyUsedIff(j: seq<Event>, e: Event)
    ensures KeyUsed(j, e) <==> e.idem.Some? && exists d :: d in j && d.idem == e.idem
  {
    if d :| d in j && d.idem == e.idem {
      var p :| 0 <= p < |j| && j[p] == d;
      assert j[p].idem == e.idem;
    }
  }

  /** An append is refused exactly if an event before has its key; else the event gets the next number of its
      instance. In a valid journal no two events share a key. */
  lemma AppendMeaning(j: seq<Event>, e: Event)
    ensures AppendTo(j, e) == None <==> e.idem.Some? && exists d :: d in j && d.idem == e.idem
    ensures AppendTo(j, e) != None ==> AppendTo(j, e) == Some(j + [e.(seqNo := |Log(j, e.inst)| + 1)])
    ensures Valid(j) ==> forall p, q :: 0 <= p < q < |j| && j[p].idem.Some? ==> j[p].idem != j[q].idem
  {
    KeyUsedIff(j, e);
    if Valid(j) {
      forall p, q | 0 <= p < q < |j| && j[p].idem.Some? ensures j[p].idem != j[q].idem {
        assert !KeyUsed(j[..q], j[q]);
        assert j[..q][p] == j[p];
      }
    }
  }

  lemma DenseSnoc(j: seq<Event>, e: Event)
    requires Dense(j) && e.seqNo == |Log(j, e.inst)| + 1
    ensures Dense(j + [e])
  {
    var k := j + [e];
    forall p | 0 <= p < |k| ensures k[p].seqNo == |Log(k[..p], k[p].inst)| + 1 {
      if p < |j| { assert k[..p] == j[..p]; } else { assert k[..p] == j; }
    }
  }

  lemma ValidSnoc(j: seq<Event>, e: Event)
    requires Valid(j)
    requires e.seqNo == |Log(j, e.inst)| + 1 && !KeyUsed(j, e)
    ensures Valid(j + [e])
  {
    DenseSnoc(j, e);
    var k := j + [e];
    forall p | 0 <= p < |k| ensures !KeyUsed(k[..p], k[p]) {
      if p < |j| { assert k[..p] == j[..p]; } else { assert k[..p] == j; }
    }
  }

  lemma DenseFront(j: seq<Event>)
    requires Dense(j) && j != []
    ensures Dense(j[..|j| - 1]) && j[|j| - 1].seqNo == |Log(j[..|j| - 1], j[|j| - 1].inst)| + 1
    ensures j == j[..|j| - 1] + [j[|j| - 1]]
  {
    var front := j[..|j| - 1];
    assert forall p :: 0 <= p < |front| ==> front[..p] == j[..p] && front[p] == j[p];
  }

  /** The per-instance log is numbered 1, 2, 3, ... */
  lemma {:induction false} LogNumbered(j: seq<Event>, i: string)
    requires Dense(j)
    ensures forall k :: 0 <= k < |Log(j, i)| ==> Log(j, i)[k].seqNo == k + 1
  {
    if j == [] {
    } else {
      var front, last := j[..|j| - 1], j[|j| - 1];
      DenseFront(j);
      LogNumbered(front, i);
      FilterSnoc(OfInstance(i), front, last);
      assert Log(j, i) == if last.inst == i then Log(front, i) + [last] else Log(front, i);
    }
  }

  lemma LogPrefix(j: seq<Event>, p: nat, i: string)
    requires p <= |j|
    ensures |Log(j[..p], i)| <= |Log(j, i)|
    ensures Log(j, i) == Log(j[..p], i) + Log(j[p..], i)
  {
    assert j == j[..p] + j[p..];
    FilterConcat(OfInstance(i), j[..p], j[p..]);
  }

  /** Position order and sequence order agree inside an instance. */
  lemma SeqFollowsPosition(j: seq<Event>, p: nat, q: nat)
    requires Dense(j) && p < |j| && q <= |j|
    ensures p < q ==> j[p].seqNo <= |Log(j[..q], j[p].inst)|
    ensures q <= p ==> j[p].seqNo > |Log(j[..q], j[p].inst)|
  {
    var i := j[p].inst;
    if p < q {
      FilterSnoc(OfInstance(i), j[..p], j[p]);
      assert j[..p + 1] == j[..p] + [j[p]];
      LogPrefix(j[..q], p + 1, i);
      assert j[..q][..p + 1] == j[..p + 1];
    } else {
      LogPrefix(j[..p], q, i);
      assert j[..p][..q] == j[..q];
    }
  }

  /** `(instance, seq)` identifies an event, so no event occurs twice. */
  lemma DenseDistinct(j: seq<Event>)
    requires Dense(j)
    ensures forall p, q :: 0 <= p < q < |j| && j[p].inst == j[q].inst ==> j[p].seqNo < j[q].seqNo
    ensures Distinct(j)
  {
    forall p, q | 0 <= p < q < |j| && j[p].inst == j[q].inst ensures j[p].seqNo < j[q].seqNo {
      SeqFollowsPosition(j, p, q);
    }
    forall p, q | 0 <= p < q < |j| ensures j[p] != j[q] {
      if j[p].inst == j[q].inst { SeqFollowsPosition(j, p, q); }
    }
  }

  predicate SeqLe(a: Event, b: Event) { a.seqNo <= b.seqNo }

  /** `read_instance`: the instance's events, sorted by sequence number. */
  function ReadInstance(j: seq<Event>, i: string): seq<Event> { Sort(SeqLe, Filter(OfInstance(i), j)) }

  /** `read_run`: the run's events, sorted by sequence number. */
  function ReadRun(j: seq<Event>, r: string): seq<Event> { Sort(SeqLe, Filter(OfRun(r), j)) }

  /** On a store that numbers densely, reading an instance gives its log in append order. */
  lemma ReadInstanceIsLog(j: seq<Event>, i: string)
    requires Dense(j)
    ensures ReadInstance(j, i) == Log(j, i)
  {
    LogNumbered(j, i);
    SortOfSorted(SeqLe, Log(j, i));
  }

  /** The in-memory store (stores/memory.py), updated in place. */
  class InMemoryJournalStore {
    var events: seq<Event>
    var seqByInstance: map<string, nat>
    var idemKeys: set<string>

    ghost predicate Ok() reads this {
      && Valid(events)
      && (forall i :: (if i in seqByInstance then seqByInstance[i] else 0) == |Log(events, i)|)
      && (forall k :: k in idemKeys <==> exists p :: 0 <= p < |events| && events[p].idem == Some(k))
    }

    constructor ()
      ensures Ok() && events == []
    {
      events, seqByInstance, idemKeys := [], map[], {};
    }

    /** Refuses a used idempotency key, else stamps the next sequence number and appends. */
    method Append(e: Event) returns (r: Option<Event>)
      requires Ok()
      modifies this
      ensures Ok()
      ensures r == (if AppendTo(old(events), e).None? then None else Some(Stamp(old(events), e)))
      ensures events == (if AppendTo(old(events), e).None? then old(events) else AppendTo(old(events), e).value)
    {
      if e.idem.Some? && e.idem.value in idemKeys { return None; }
      var n := (if e.inst in seqByInstance then seqByInstance[e.inst] else 0) + 1;
      var stamped := e.(seqNo := n);
      ghost var before := events;
      ValidSnoc(events, stamped);
      seqByInstance := seqByInstance[e.inst := n];
      if e.idem.Some? { idemKeys := idemKeys + {e.idem.value}; }
      events := events + [stamped];
      forall i ensures (if i in seqByInstance then seqByInstance[i] else 0) == |Log(events, i)| {
        FilterSnoc(OfInstance(i), before, stamped);
      }
      forall k ensures k in idemKeys <==> exists p :: 0 <= p < |events| && events[p].idem == Some(k) {
        assert events[|before|] == stamped;
        if p :| 0 <= p < |before| && before[p].idem == Some(k) { assert events[p].idem == Some(k); }
      }
      return Some(stamped);
    }

    method MaxSeq(i: string) returns (n: nat)
      requires Ok()
      ensures n == |Log(events, i)|
    {
      n := if i in seqByInstance then seqByInstance[i] else 0;
    }
  }
}
