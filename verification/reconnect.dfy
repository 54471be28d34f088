/** Reconnecting: the client keeps its seen ids, the server rebuilds its cursors from a snapshot of
    the last 50 events. When that loses nothing. */
module Reconnect {
  import opened Sequences
  import opened Journal
  import opened Reads
  import opened Stream
  import opened Delivery
  import opened Snapshot
  import opened Client

  ghost predicate NothingNewCut(s: State)
    requires s.phase.Gathering?
  {
    forall p :: s.start <= p < |s.journal| && s.journal[p] in s.phase.got && s.journal[p] !in s.received ==>
      s.journal[p] in Window(s.phase.got, s.phase.snapshot)
  }

  /** A gather starts with every event's instance registered, and its window cuts nothing the client
      has not received. */
  ghost predicate Calm(s: State, a: Action) {
    match a
    case Connect(_) => forall e :: e in s.journal ==> e.inst in s.registered
    case PollStart(_) => forall e :: e in s.journal ==> e.inst in s.registered
    case Finish => s.phase.Gathering? ==> NothingNewCut(s)
    case _ => true
  }

  ghost predicate GatherPending(s: State) {
    s.phase.Gathering? ==>
      && s.synced <= s.phase.begin <= |s.journal|
      && forall p :: 0 <= p < s.phase.begin ==> s.journal[p].inst in s.phase.at || s.journal[p].inst in s.phase.todo
  }

  ghost predicate SendPending(s: State) {
    s.phase.Sending? ==>
      && s.synced <= s.phase.begun <= |s.journal|
      && forall p :: 0 <= p < s.phase.begun ==> s.journal[p] in s.known
  }

  ghost predicate NoGap(s: State) {
    && s.start <= s.synced <= |s.journal|
    && (forall p :: s.start <= p < s.synced ==> s.journal[p] in s.received)
    && (!s.phase.Offline? ==> forall p :: s.start <= p < |s.journal| && s.journal[p] in s.known ==>
          s.journal[p] in s.received || s.journal[p] in Queue(s))
    && GatherPending(s) && SendPending(s)
  }

  lemma GatheredBeforeBegin(s: State)
    requires Inv(s) && NoGap(s) && Enabled(s, Finish)
    ensures forall p :: 0 <= p < s.phase.begin ==> s.journal[p] in s.phase.got
  {
  }

  lemma FinishSnapshotKeepsNoGap(s: State)
    requires Inv(s) && NoGap(s) && Enabled(s, Finish) && Calm(s, Finish) && s.phase.snapshot
    ensures NoGap(FinishSnapshot(s))
  {
    GatheredBeforeBegin(s);
  }

  lemma PollSendsNew(s: State, e: Event)
    requires Inv(s) && Enabled(s, Finish) && !s.phase.snapshot
    requires e in s.phase.got && e !in s.known && e in Window(s.phase.got, false)
    ensures e in Queue(FinishPoll(s))
  {
    PollGathersMore(s);
    FilterMember(Unseen(s.cursor), Window(s.phase.got, false), e);
    assert e.seqNo > Get(s.cursor, e.inst);
  }

  /** What a finished poll changes of what `NoGap` looks at. */
  ghost predicate PollOver(s: State, s': State)
    requires s.phase.Gathering?
  {
    && s'.journal == s.journal && s'.received == s.received && s'.start == s.start && s'.known == s.phase.got
    && (|| (s'.phase.Polling? && s'.synced == s.phase.begin)
        || (s'.phase.Sending? && s'.phase.begun == s.phase.begin && s'.synced == s.synced))
  }

  lemma FinishedPoll(s: State)
    requires Enabled(s, Finish) && !s.phase.snapshot
    ensures PollOver(s, FinishPoll(s))
  {
  }

  lemma PollOverKeepsNoGap(s: State, s': State)
    requires NoGap(s) && s.phase.Gathering? && PollOver(s, s')
    requires forall p :: 0 <= p < s.phase.begin ==> s.journal[p] in s.phase.got
    requires forall p :: s.start <= p < |s.journal| && s.journal[p] in s.phase.got ==>
               s.journal[p] in s.received || s.journal[p] in Queue(s')
    ensures NoGap(s')
  {
  }

  lemma FinishPollKeepsNoGap(s: State)
    requires Inv(s) && NoGap(s) && Enabled(s, Finish) && Calm(s, Finish) && !s.phase.snapshot
    ensures NoGap(FinishPoll(s))
  {
    GatheredBeforeBegin(s);
    forall p | s.start <= p < |s.journal| && s.journal[p] in s.phase.got
      ensures s.journal[p] in s.received || s.journal[p] in Queue(FinishPoll(s))
    {
      if s.journal[p] !in s.known && s.journal[p] !in s.received { PollSendsNew(s, s.journal[p]); }
    }
    FinishedPoll(s);
    PollOverKeepsNoGap(s, FinishPoll(s));
  }

  /** What a journal that only grew keeps of the bookkeeping. */
  lemma GrownJournalPending(s: State, s': State)
    requires GatherPending(s) && SendPending(s)
    requires s'.phase == s.phase && s'.synced == s.synced && s'.known == s.known && s.journal <= s'.journal
    ensures GatherPending(s') && SendPending(s')
  {
  }

  lemma UnreadYet(s: State, x: Event)
    requires ReadsOk(s) && x.seqNo == |Log(s.journal, x.inst)| + 1
    ensures x !in s.known
  {
    assert Get(s.readTo, x.inst) <= |Log(s.journal, x.inst)|;
  }

  lemma AppendKeepsNoGap(s: State, e: Event)
    requires Inv(s) && NoGap(s) && Enabled(s, Append(e))
    ensures NoGap(Do(s, Append(e)))
  {
    UnreadYet(s, Stamp(s.journal, e));
    GrownJournalPending(s, Do(s, Append(e)));
  }

  lemma ReadKeepsNoGap(s: State)
    requires NoGap(s) && Enabled(s, Read)
    ensures NoGap(Do(s, Read))
  {
    assert s.phase.todo == [s.phase.todo[0]] + s.phase.todo[1..];
  }

  lemma SendKeepsNoGap(s: State)
    requires NoGap(s) && Enabled(s, Send)
    ensures NoGap(Do(s, Send))
  {
    assert s.phase.queue == [s.phase.queue[0]] + s.phase.queue[1..];
  }

  lemma StartKeepsNoGap(s: State, a: Action)
    requires Inv(s) && NoGap(s) && Enabled(s, a) && Calm(s, a) && (a.Connect? || a.PollStart?)
    ensures NoGap(Do(s, a))
  {
    assert forall p :: 0 <= p < |s.journal| ==> s.journal[p] in s.journal;
  }

  lemma StepKeepsNoGap(s: State, a: Action)
    requires Inv(s) && NoGap(s) && Enabled(s, a) && Calm(s, a)
    ensures NoGap(Do(s, a))
  {
    match a
    case Append(e) => AppendKeepsNoGap(s, e);
    case Finish => if s.phase.snapshot { FinishSnapshotKeepsNoGap(s); } else { FinishPollKeepsNoGap(s); }
    case Read => ReadKeepsNoGap(s);
    case Send => SendKeepsNoGap(s);
    case Connect(_) => StartKeepsNoGap(s, a);
    case PollStart(_) => StartKeepsNoGap(s, a);
    case _ =>
  }

  lemma InitHasNoGap(s: State)
    requires Init(s)
    ensures NoGap(s)
  {
  }

  lemma {:induction false} CalmRunHasNoGap(trace: seq<State>, acts: seq<Action>, k: nat)
    requires Run(trace, acts) && k <= |acts|
    requires forall l :: 0 <= l < k ==> Calm(trace[l], acts[l])
    ensures NoGap(trace[k])
  {
    if k == 0 {
      InitHasNoGap(trace[0]);
    } else {
      RunStep(trace, acts, k - 1);
      CalmRunHasNoGap(trace, acts, k - 1);
      StepKeepsNoGap(trace[k - 1], acts[k - 1]);
    }
  }

  ghost predicate UniqueIds(j: seq<Event>) {
    forall p, q :: 0 <= p < q < |j| ==> j[p].id != j[q].id
  }

  lemma IdsTellApart(j: seq<Event>, received: seq<Event>)
    requires UniqueIds(j) && forall e :: e in received ==> e in j
    ensures forall a, b :: a in received && b in received && a.id == b.id ==> a == b
  {
    forall a, b | a in received && b in received && a.id == b.id ensures a == b {
      var p :| 0 <= p < |j| && j[p] == a;
      var q :| 0 <= q < |j| && j[q] == b;
      assert p == q;
    }
  }

  lemma ReceivedOnce(s: State, e: Event)
    requires ReadsOk(s) && UniqueIds(s.journal) && e in s.received
    ensures multiset(Accepted(s.received))[e] == 1
  {
    IdsTellApart(s.journal, s.received);
    AcceptedOnce(s.received, e);
  }

  /** End to end, over any number of reconnects and in any timestamp order: whatever was appended
      between the first connection and the last fully sent gather stands exactly once in the client's
      sequence. */
  lemma ExactlyOnceAcrossReconnects(trace: seq<State>, acts: seq<Action>, k: nat, p: nat)
    requires Run(trace, acts) && k <= |acts| && UniqueIds(trace[k].journal)
    requires forall l :: 0 <= l < k ==> Calm(trace[l], acts[l])
    requires trace[k].start <= p < trace[k].synced
    ensures p < |trace[k].journal|
    ensures multiset(Accepted(trace[k].received))[trace[k].journal[p]] == 1
  {
    CalmRunHasNoGap(trace, acts, k);
    RunKeepsInv(trace, acts, k);
    ReceivedOnce(trace[k], trace[k].journal[p]);
  }

  ghost predicate CycleState(s: State, begin: nat) {
    && (s.phase.Gathering? ==> s.phase.begin == begin)
    && (s.phase.Sending? ==> s.phase.begun == begin)
    && (s.phase.Polling? ==> s.synced == begin)
    && !s.phase.Offline?
  }

  lemma CycleStep(s: State, a: Action, begin: nat)
    requires Enabled(s, a) && DuringPoll(a) && CycleState(s, begin)
    ensures CycleState(Do(s, a), begin)
  {
  }

  lemma {:induction false} CycleSyncs(trace: seq<State>, acts: seq<Action>, k: nat, m: nat)
    requires Run(trace, acts) && k < m <= |acts| && acts[k].PollStart?
    requires forall l :: k < l < m ==> DuringPoll(acts[l])
    ensures CycleState(trace[m], |trace[k].journal|)
  {
    RunDoes(trace, acts, m - 1);
    if m <= k + 1 {
    } else {
      CycleSyncs(trace, acts, k, m - 1);
      CycleStep(trace[m - 1], acts[m - 1], |trace[k].journal|);
    }
  }

  /** A completed poll settles everything appended before it started. */
  lemma PollDeliversAllEarlier(trace: seq<State>, acts: seq<Action>, k: nat, m: nat, p: nat)
    requires Run(trace, acts) && PollCycle(trace, acts, k, m) && UniqueIds(trace[m].journal)
    requires forall l :: 0 <= l < m ==> Calm(trace[l], acts[l])
    requires trace[m].start <= p < |trace[k].journal|
    ensures p < |trace[m].journal|
    ensures multiset(Accepted(trace[m].received))[trace[m].journal[p]] == 1
  {
    CycleSyncs(trace, acts, k, m);
    ExactlyOnceAcrossReconnects(trace, acts, m, p);
  }

  /** On one connection no order is needed: re-sent frames included, every event first read by a
      poll inside its window stands exactly once in the client's sequence when the poll is done. */
  lemma ExactlyOnceOnOneConnection(trace: seq<State>, acts: seq<Action>, k: nat, m: nat, e: Event)
    requires Run(trace, acts) && FirstRead(trace, acts, k, e) && k < m && SameConnection(acts, k, m)
    requires |Later(trace[k].phase.got, e)| < 1000
    requires trace[m].phase.Polling? && UniqueIds(trace[m].journal)
    ensures multiset(Accepted(trace[m].received))[e] == 1
  {
    FirstReadDecides(trace, acts, k, m, e);
    RunKeepsInv(trace, acts, m);
    ReceivedOnce(trace[m], e);
  }

  /** No poll loses more than its cut: the rest stands exactly once in the client's sequence. */
  lemma NoLossAtTheClient(trace: seq<State>, acts: seq<Action>, k: nat, m: nat, e: Event)
    requires Run(trace, acts) && PollCycle(trace, acts, k, m) && UniqueIds(trace[m].journal)
    requires e in trace[k].journal && e.inst in trace[k].registered
    requires Get(trace[m].snapTo, e.inst) < e.seqNo && e !in trace[m].cut
    ensures multiset(Accepted(trace[m].received))[e] == 1
  {
    NoLoss(trace, acts, k, m, e);
    RunKeepsInv(trace, acts, m);
    ReceivedOnce(trace[m], e);
  }

  // ---- When the sort key agrees with append order ---------------------------------------------

  ghost predicate InOrder(j: seq<Event>) {
    forall p, q :: 0 <= p < q < |j| ==> KeyLe(j[p], j[q])
  }

  /** As `Calm`, by counting: a gather ends with no more events appended since the last fully sent
      gather began than its window holds. */
  ghost predicate CalmByCount(s: State, a: Action) {
    match a
    case Connect(_) => Calm(s, a)
    case PollStart(_) => Calm(s, a)
    case Finish => s.phase.Gathering? ==> |s.journal| - s.synced <= if s.phase.snapshot then 50 else 1000
    case _ => true
  }

  /** In append order, exactly the later positions sort after an event. */
  lemma FewLater(j: seq<Event>, got: seq<Event>, p: nat)
    requires Dense(j) && InOrder(j) && p < |j| && (forall e :: e in got ==> e in j)
    ensures |Later(got, j[p])| <= |j| - p - 1
  {
    var tail := j[p + 1..];
    forall e | e in Later(got, j[p]) ensures e in tail {
      var q :| 0 <= q < |j| && j[q] == e;
      if q > p {
        assert tail[q - p - 1] == e;
      } else if q < p {
        KeyAntisymmetric(j, j[q], j[p]);
      }
    }
    DenseDistinct(j);
    DistinctSize(tail);
    SubsetSize(Later(got, j[p]), set e | e in tail);
  }

  lemma CountsSuffice(s: State, a: Action)
    requires Inv(s) && NoGap(s) && InOrder(s.journal) && Enabled(s, a) && CalmByCount(s, a)
    ensures Calm(s, a)
  {
    if a == Finish {
      var got := s.phase.got;
      forall p | s.start <= p < |s.journal| && s.journal[p] in got && s.journal[p] !in s.received
        ensures s.journal[p] in Window(got, s.phase.snapshot)
      {
        FewLater(s.journal, got, p);
        WindowIsRank(s.journal, got, if s.phase.snapshot then SNAPSHOT else WINDOW, s.journal[p]);
      }
    }
  }

  lemma OrderBefore(s: State, a: Action)
    requires Enabled(s, a) && InOrder(Do(s, a).journal)
    ensures InOrder(s.journal)
  {
    assert s.journal == Do(s, a).journal[..|s.journal|];
  }

  lemma InOrderStepIsCalm(trace: seq<State>, acts: seq<Action>, k: nat)
    requires Run(trace, acts) && k < |acts| && InOrder(trace[k].journal)
    requires forall l :: 0 <= l < k ==> Calm(trace[l], acts[l])
    requires CalmByCount(trace[k], acts[k])
    ensures Calm(trace[k], acts[k])
  {
    RunStep(trace, acts, k);
    CalmRunHasNoGap(trace, acts, k);
    CountsSuffice(trace[k], acts[k]);
  }

  lemma OrderBeforeStep(trace: seq<State>, acts: seq<Action>, k: nat)
    requires Run(trace, acts) && k < |acts| && InOrder(trace[k + 1].journal)
    ensures InOrder(trace[k].journal)
  {
    RunStep(trace, acts, k);
    OrderBefore(trace[k], acts[k]);
  }

  lemma {:induction false} InOrderRunIsCalm(trace: seq<State>, acts: seq<Action>, k: nat)
    requires Run(trace, acts) && k <= |acts| && InOrder(trace[k].journal)
    requires forall l :: 0 <= l < k ==> CalmByCount(trace[l], acts[l])
    ensures forall l :: 0 <= l < k ==> Calm(trace[l], acts[l])
  {
    if k == 0 {
    } else {
      OrderBeforeStep(trace, acts, k - 1);
      InOrderRunIsCalm(trace, acts, k - 1);
      InOrderStepIsCalm(trace, acts, k - 1);
    }
  }

  /** With append order as sort order, counting the events appended since the last fully sent gather
      is enough for exactly-once delivery. */
  lemma ExactlyOnceByCount(trace: seq<State>, acts: seq<Action>, k: nat, p: nat)
    requires Run(trace, acts) && k <= |acts| && InOrder(trace[k].journal) && UniqueIds(trace[k].journal)
    requires forall l :: 0 <= l < k ==> CalmByCount(trace[l], acts[l])
    requires trace[k].start <= p < trace[k].synced
    ensures p < |trace[k].journal|
    ensures multiset(Accepted(trace[k].received))[trace[k].journal[p]] == 1
  {
    InOrderRunIsCalm(trace, acts, k);
    ExactlyOnceAcrossReconnects(trace, acts, k, p);
  }

  lemma ExactlyLater(j: seq<Event>, got: seq<Event>, p: nat)
    requires Dense(j) && InOrder(j) && p < |j| && (forall e :: e in got <==> e in j)
    ensures |Later(got, j[p])| == |j| - p - 1
  {
    var tail := j[p + 1..];
    FewLater(j, got, p);
    DenseDistinct(j);
    DistinctSize(tail);
    forall e | e in tail ensures e in Later(got, j[p]) {
      var q :| 0 <= q < |tail| && tail[q] == e;
      assert j[p + 1 + q] == e;
    }
    SubsetSize((set e | e in tail), Later(got, j[p]));
  }

  lemma InLastFifty(j: seq<Event>, got: seq<Event>, p: nat)
    requires Dense(j) && InOrder(j) && Distinct(got) && (forall e :: e in got <==> e in j) && p < |j|
    ensures j[p] in Window(got, true) <==> |j| - p <= SNAPSHOT
  {
    ExactlyLater(j, got, p);
    WindowIsRank(j, got, SNAPSHOT, j[p]);
  }

  lemma OvertakenInLastFifty(j: seq<Event>, got: seq<Event>, p: nat)
    requires Dense(j) && InOrder(j) && Distinct(got) && (forall e :: e in got <==> e in j)
    requires p < |j| && |j| - p > SNAPSHOT
    ensures Overtaken(Window(got, true), j[p]) <==> exists q :: |j| - SNAPSHOT <= q < |j| && j[q].inst == j[p].inst
  {
    DenseDistinct(j);
    if q :| |j| - SNAPSHOT <= q < |j| && j[q].inst == j[p].inst { InLastFifty(j, got, q); }
    if x :| x in Window(got, true) && x.inst == j[p].inst && x.seqNo > j[p].seqNo {
      WindowMember(got, SNAPSHOT, x);
      var q :| 0 <= q < |j| && j[q] == x;
      InLastFifty(j, got, q);
    }
  }

  /** What a reconnect keeps, whenever it was appended: if its snapshot read the whole journal, the
      last 50 positions, and of the earlier ones those whose instance has none of the last 50, as far
      as the first poll's window reaches. */
  lemma ReconnectKeepsLastFifty(trace: seq<State>, acts: seq<Action>, k: nat, m: nat, n: nat, p: nat)
    requires Run(trace, acts) && SnapshotRead(trace, acts, k) && FirstPoll(acts, k, m)
    requires m < n && SameConnection(acts, k, n) && (trace[n].phase.Polling? || trace[n].phase.Gathering?)
    requires InOrder(trace[k].journal) && (forall e :: e in trace[k].journal ==> e in trace[k].phase.got)
    requires p < |trace[k].journal|
    ensures trace[m].phase.Gathering?
    ensures var j := trace[k].journal;
            j[p] in trace[n].sent <==>
              || |j| - p <= 50
              || ((forall q :: |j| - 50 <= q < |j| && 0 <= q ==> j[q].inst != j[p].inst)
                  && |Later(trace[m].phase.got, j[p])| < 1000)
  {
    var j, got := trace[k].journal, trace[k].phase.got;
    GatherSound(trace, acts, k);
    SnapshotDecides(trace, acts, k, m, n, j[p]);
    InLastFifty(j, got, p);
    if |j| - p > SNAPSHOT { OvertakenInLastFifty(j, got, p); }
  }
}
