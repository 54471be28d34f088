/** What a connection makes of the events its snapshot read: which of them it ever sends. */
module Snapshot {
  import opened Sequences
  import opened Sorting
  import opened Journal
  import opened Reads
  import opened Stream
  import opened Delivery

  /** Step `k` completes the snapshot of a connection. */
  ghost predicate SnapshotRead(trace: seq<State>, acts: seq<Action>, k: nat) {
    k < |acts| < |trace| && acts[k] == Finish && trace[k].phase.Gathering? && trace[k].phase.snapshot
  }

  /** Step `m` completes the first poll after the snapshot of step `k`. */
  ghost predicate FirstPoll(acts: seq<Action>, k: nat, m: nat) {
    k < m < |acts| && acts[m] == Finish && forall l :: k < l < m ==> acts[l] != Finish
  }

  /** A later event of `e`'s instance stands in the window `w`. */
  ghost predicate Overtaken(w: seq<Event>, e: Event) {
    exists x :: x in w && x.inst == e.inst && x.seqNo > e.seqNo
  }

  /** The fate of an event the snapshot gathered in `got`: it is in the snapshot's window, or no later
      event of its instance is and the first poll, gathering `polled`, still has it in its own. */
  ghost predicate Survives(got: seq<Event>, polled: seq<Event>, e: Event) {
    e in Window(got, true) || (!Overtaken(Window(got, true), e) && |Later(polled, e)| < 1000)
  }

  // ---- Until the first poll ------------------------------------------------------------------

  /** Per instance, the highest number sent, or 0. */
  ghost predicate CursorIsMax(cursor: map<string, nat>, sent: seq<Event>) {
    && (forall e :: e in sent ==> e.seqNo <= Get(cursor, e.inst))
    && forall i :: Get(cursor, i) == 0 || exists e :: e in sent && e.inst == i && e.seqNo == Get(cursor, i)
  }

  /** The snapshot of `got` is being sent, or was, and no poll has finished. */
  ghost predicate Settling(s: State, got: seq<Event>) {
    && s.known == got && CursorIsMax(s.cursor, s.sent)
    && (s.phase.Gathering? ==> !s.phase.snapshot) && (s.phase.Sending? ==> s.phase.initial)
    && (if s.phase.Offline? then s.sent <= Window(got, true) else s.sent + Queue(s) == Window(got, true))
  }

  lemma CursorSend(cursor: map<string, nat>, sent: seq<Event>, x: Event)
    requires CursorIsMax(cursor, sent)
    ensures CursorIsMax(Advance(cursor, x, true), sent + [x])
  {
    var cursor', sent' := Advance(cursor, x, true), sent + [x];
    assert x in sent';
    forall i | Get(cursor', i) != 0 ensures exists e :: e in sent' && e.inst == i && e.seqNo == Get(cursor', i) {
      if i == x.inst && Get(cursor', i) == x.seqNo {
        assert x in sent' && x.inst == i;
      } else {
        assert Get(cursor', i) == Get(cursor, i);
        var e :| e in sent && e.inst == i && e.seqNo == Get(cursor, i);
        assert e in sent';
      }
    }
  }

  lemma SettlingSend(s: State, got: seq<Event>)
    requires Settling(s, got) && Enabled(s, Send)
    ensures Settling(Do(s, Send), got)
  {
    SendKeepsSequence(s);
    CursorSend(s.cursor, s.sent, s.phase.queue[0]);
  }

  lemma SettlingStep(s: State, a: Action, got: seq<Event>)
    requires Settling(s, got) && Enabled(s, a) && a != Finish && !a.Connect?
    ensures Settling(Do(s, a), got)
  {
    match a
    case Send => SettlingSend(s, got);
    case _ =>
  }

  lemma SettlingStarts(s: State)
    requires Inv(s) && Enabled(s, Finish) && s.phase.snapshot
    ensures Settling(Do(s, Finish), s.phase.got)
  {
    assert [] + Window(s.phase.got, true) == Window(s.phase.got, true);
  }

  lemma SettlingAtFirst(trace: seq<State>, acts: seq<Action>, k: nat)
    requires Run(trace, acts) && SnapshotRead(trace, acts, k)
    ensures Settling(trace[k + 1], trace[k].phase.got)
  {
    RunStep(trace, acts, k);
    SettlingStarts(trace[k]);
  }

  lemma {:induction false} SettlingUntilPoll(trace: seq<State>, acts: seq<Action>, k: nat, n: nat)
    requires Run(trace, acts) && SnapshotRead(trace, acts, k) && k < n <= |acts| && SameConnection(acts, k, n)
    requires forall l :: k < l < n ==> acts[l] != Finish
    ensures Settling(trace[n], trace[k].phase.got)
  {
    if n == k + 1 {
      SettlingAtFirst(trace, acts, k);
    } else {
      SettlingUntilPoll(trace, acts, k, n - 1);
      RunDoes(trace, acts, n - 1);
      SettlingStep(trace[n - 1], acts[n - 1], trace[k].phase.got);
    }
  }

  // ---- At the first poll ---------------------------------------------------------------------

  /** The cursor has passed exactly the events that a later one of their instance overtook. */
  lemma CursorPasses(j: seq<Event>, cursor: map<string, nat>, w: seq<Event>, e: Event)
    requires Dense(j) && CursorIsMax(cursor, w) && (forall x :: x in w ==> x in j) && e in j && e !in w
    ensures e.seqNo > Get(cursor, e.inst) <==> !Overtaken(w, e)
  {
    LogsStartAtOne(j);
    if e.seqNo <= Get(cursor, e.inst) {
      var x :| x in w && x.inst == e.inst && x.seqNo == Get(cursor, e.inst);
      DenseDistinct(j);
      assert x != e && x.seqNo != e.seqNo;
    }
  }

  /** At the start of the first poll's sending, an event left out of the window is queued exactly if
      it has not been overtaken and the poll's window holds it. */
  lemma FirstPollQueues(s: State, got: seq<Event>, e: Event)
    requires Enabled(s, Finish) && !s.phase.snapshot
    requires Inv(s) && Settling(s, got) && e in got
    ensures s.sent == Window(got, true) && e in s.phase.got
    ensures e !in s.sent ==> (e.seqNo > Get(s.cursor, e.inst) <==> !Overtaken(s.sent, e))
    ensures e !in s.sent ==> (e in Queue(FinishPoll(s)) <==> Survives(got, s.phase.got, e))
  {
    assert s.sent + Queue(s) == s.sent;
    PollGathersMore(s);
    PollQueue(s);
    if e !in s.sent { CursorPasses(s.journal, s.cursor, s.sent, e); }
  }

  // ---- Ever after ----------------------------------------------------------------------------

  ghost predicate Passed(s: State, e: Event) {
    Get(s.cursor, e.inst) >= e.seqNo && forall x :: x in Queue(s) && x.inst == e.inst ==> x.seqNo > e.seqNo
  }

  /** Never to be sent on this connection: too many gathered events sort after `e`, or the cursor is
      past it and so is everything queued of its instance. */
  ghost predicate Doomed(s: State, e: Event) {
    && e !in s.sent && e !in Queue(s) && e in s.known
    && (s.phase.Gathering? ==> !s.phase.snapshot) && (s.phase.Sending? ==> !s.phase.initial)
    && (|Later(s.known, e)| >= WINDOW || Passed(s, e))
  }

  /** What a finished poll leaves as it was. */
  lemma PollKeepsSent(s: State)
    requires Enabled(s, Finish) && !s.phase.snapshot
    ensures var s' := FinishPoll(s);
            && s'.sent == s.sent && s'.cursor == s.cursor && s'.known == s.phase.got
            && !s'.phase.Gathering? && (s'.phase.Sending? ==> !s'.phase.initial) && !s'.phase.Offline?
  {
  }

  lemma FirstPollDooms(s: State, got: seq<Event>, e: Event)
    requires Enabled(s, Finish) && !s.phase.snapshot
    requires Inv(s) && Settling(s, got) && e in got && !Survives(got, s.phase.got, e)
    ensures Doomed(FinishPoll(s), e)
  {
    FirstPollQueues(s, got, e);
    PollKeepsSent(s);
    PollQueue(s);
  }

  lemma DoomedStaysCut(s: State, e: Event)
    requires Inv(s) && Doomed(s, e) && Enabled(s, Finish)
    ensures e !in Queue(FinishPoll(s)) && e in s.phase.got
    ensures |Later(s.known, e)| >= WINDOW ==> |Later(s.phase.got, e)| >= WINDOW
    ensures forall x :: x in Queue(FinishPoll(s)) ==> x.seqNo > Get(s.cursor, x.inst)
  {
    PollGathersMore(s);
    PollQueue(s);
    LaterGrows(s.known, s.phase.got, e);
  }

  lemma DoomedFinish(s: State, e: Event)
    requires Inv(s) && Doomed(s, e) && Enabled(s, Finish)
    ensures Doomed(Do(s, Finish), e)
  {
    PollKeepsSent(s);
    DoomedStaysCut(s, e);
  }

  lemma DoomedSend(s: State, e: Event)
    requires Doomed(s, e) && Enabled(s, Send)
    ensures Doomed(Do(s, Send), e)
  {
    assert s.phase.queue == [s.phase.queue[0]] + s.phase.queue[1..];
    assert s.phase.queue[0] in Queue(s);
  }

  lemma DoomedStep(s: State, a: Action, e: Event)
    requires Inv(s) && Doomed(s, e) && Enabled(s, a) && !a.Connect?
    ensures Doomed(Do(s, a), e)
  {
    match a
    case Finish => DoomedFinish(s, e);
    case Send => DoomedSend(s, e);
    case _ =>
  }

  lemma {:induction false} DoomedForGood(trace: seq<State>, acts: seq<Action>, k: nat, n: nat, e: Event)
    requires Run(trace, acts) && k <= n && SameConnection(acts, k, n) && Doomed(trace[k], e)
    ensures Doomed(trace[n], e)
  {
    if n <= k {
    } else {
      DoomedForGood(trace, acts, k, n - 1, e);
      RunStep(trace, acts, n - 1);
      DoomedStep(trace[n - 1], acts[n - 1], e);
    }
  }

  lemma FramesExtend(s: State, a: Action)
    requires Inv(s) && Enabled(s, a) && !a.Connect? && (s.phase.Gathering? ==> !s.phase.snapshot)
    ensures s.phase.Offline? ==> Do(s, a).phase.Offline?
    ensures Do(s, a).phase.Offline? ||
            (&& s.sent + Queue(s) <= Do(s, a).sent + Queue(Do(s, a))
             && (Do(s, a).phase.Gathering? ==> !Do(s, a).phase.snapshot))
  {
    match a
    case Send => SendKeepsSequence(s);
    case Finish => assert Queue(s) == [] && s.sent + [] == s.sent;
    case _ =>
  }

  lemma {:induction false} FramesStay(trace: seq<State>, acts: seq<Action>, k: nat, n: nat, first: seq<Event>)
    requires Run(trace, acts) && k <= n && SameConnection(acts, k, n)
    requires !(trace[k].phase.Gathering? && trace[k].phase.snapshot) && first <= trace[k].sent + Queue(trace[k])
    ensures trace[n].phase.Offline? ||
            (first <= trace[n].sent + Queue(trace[n]) && !(trace[n].phase.Gathering? && trace[n].phase.snapshot))
  {
    if n <= k {
    } else {
      FramesStay(trace, acts, k, n - 1, first);
      RunStep(trace, acts, n - 1);
      FramesExtend(trace[n - 1], acts[n - 1]);
    }
  }

  lemma SentOrQueued(s: State, e: Event)
    ensures e in s.sent + Queue(s) <==> e in s.sent || e in Queue(s)
  {
  }

  lemma PrefixMember<T>(a: seq<T>, b: seq<T>, x: T)
    requires a <= b && x in a
    ensures x in b
  {
  }

  lemma StaysSent(trace: seq<State>, acts: seq<Action>, k: nat, n: nat, e: Event)
    requires Run(trace, acts) && k <= n && SameConnection(acts, k, n)
    requires !(trace[k].phase.Gathering? && trace[k].phase.snapshot) && (e in trace[k].sent || e in Queue(trace[k]))
    ensures trace[n].phase.Offline? || e in trace[n].sent || e in Queue(trace[n])
  {
    var first := trace[k].sent + Queue(trace[k]);
    FramesStay(trace, acts, k, n, first);
    SentOrQueued(trace[k], e);
    if !trace[n].phase.Offline? {
      PrefixMember(first, trace[n].sent + Queue(trace[n]), e);
      SentOrQueued(trace[n], e);
    }
  }

  /** Right after the first poll an event is sent or queued if it survives, and else doomed. */
  lemma FirstPollDecides(trace: seq<State>, acts: seq<Action>, k: nat, m: nat, e: Event)
    requires Run(trace, acts) && SnapshotRead(trace, acts, k) && FirstPoll(acts, k, m) && SameConnection(acts, k, m)
    requires e in trace[k].phase.got
    ensures trace[m].phase.Gathering? && !trace[m + 1].phase.Gathering?
    ensures if Survives(trace[k].phase.got, trace[m].phase.got, e)
            then e in trace[m + 1].sent || e in Queue(trace[m + 1]) else Doomed(trace[m + 1], e)
  {
    SettlingUntilPoll(trace, acts, k, m);
    RunStep(trace, acts, m);
    PollKeepsSent(trace[m]);
    FirstPollQueues(trace[m], trace[k].phase.got, e);
    if !Survives(trace[k].phase.got, trace[m].phase.got, e) { FirstPollDooms(trace[m], trace[k].phase.got, e); }
  }

  /** Whatever the timestamps: an event the snapshot gathered is sent on its connection, by the
      snapshot or by the first poll, exactly if it survives, and otherwise never. */
  lemma SnapshotDecides(trace: seq<State>, acts: seq<Action>, k: nat, m: nat, n: nat, e: Event)
    requires Run(trace, acts) && SnapshotRead(trace, acts, k) && FirstPoll(acts, k, m)
    requires m < n && SameConnection(acts, k, n) && e in trace[k].phase.got
    ensures trace[m].phase.Gathering?
    ensures var survives := Survives(trace[k].phase.got, trace[m].phase.got, e);
            && (!trace[n].phase.Offline? ==> (e in trace[n].sent || e in Queue(trace[n]) <==> survives))
            && (trace[n].phase.Polling? || trace[n].phase.Gathering? ==> (e in trace[n].sent <==> survives))
            && (e in trace[n].sent ==> survives)
  {
    FirstPollDecides(trace, acts, k, m, e);
    if Survives(trace[k].phase.got, trace[m].phase.got, e) {
      StaysSent(trace, acts, m + 1, n, e);
    } else {
      DoomedForGood(trace, acts, m + 1, n, e);
    }
  }

  /** What the first poll adds to the snapshot: of the events left out of its window, those no later
      event of their instance overtook, and its own window holds. */
  lemma FirstPollCatchesUp(trace: seq<State>, acts: seq<Action>, k: nat, m: nat, e: Event)
    requires Run(trace, acts) && SnapshotRead(trace, acts, k) && FirstPoll(acts, k, m) && SameConnection(acts, k, m)
    requires e in trace[k].phase.got && e !in Window(trace[k].phase.got, true)
    ensures trace[m].phase.Gathering?
    ensures e in Queue(trace[m + 1]) <==>
            !Overtaken(Window(trace[k].phase.got, true), e) && |Later(trace[m].phase.got, e)| < WINDOW
  {
    SettlingUntilPoll(trace, acts, k, m);
    RunStep(trace, acts, m);
    FirstPollQueues(trace[m], trace[k].phase.got, e);
  }

  lemma FindFirstPoll(acts: seq<Action>, k: nat, n: nat) returns (m: nat)
    requires k < n <= |acts|
    ensures k < m <= n && (forall l :: k < l < m ==> acts[l] != Finish) && (m < n ==> acts[m] == Finish)
  {
    m := k + 1;
    while m < n && acts[m] != Finish
      invariant k < m <= n && forall l :: k < l < m ==> acts[l] != Finish
    {
      m := m + 1;
    }
  }

  /** An event left out of the snapshot and overtaken in it is never sent on the connection, with or
      without a poll. */
  lemma OvertakenIsNeverSent(trace: seq<State>, acts: seq<Action>, k: nat, n: nat, e: Event)
    requires Run(trace, acts) && SnapshotRead(trace, acts, k) && k < n && SameConnection(acts, k, n)
    requires e in trace[k].phase.got && e !in Window(trace[k].phase.got, true)
    requires Overtaken(Window(trace[k].phase.got, true), e)
    ensures e !in trace[n].sent
  {
    var m := FindFirstPoll(acts, k, n);
    if m < n {
      SnapshotDecides(trace, acts, k, m, n, e);
    } else {
      SettlingUntilPoll(trace, acts, k, n);
      SentOrQueued(trace[n], e);
    }
  }

  // ---- With monotone timestamps --------------------------------------------------------------

  lemma PassedOver(j: seq<Event>, got: seq<Event>, e: Event, x: Event)
    requires Dense(j) && MonotoneTs(j) && Distinct(got) && (forall d :: d in got ==> d in j)
    requires e in got && e !in Window(got, true) && x in Window(got, true) && x.inst == e.inst
    ensures e.seqNo < x.seqNo
  {
    SortDistinct(got);
    SortIncreasing(j, got);
    var s := Sort(KeyLe, got);
    var from := if SNAPSHOT > |s| then 0 else |s| - SNAPSHOT;
    var a :| 0 <= a < |s| && s[a] == e;
    InSuffix(s, from, a);
    var b :| 0 <= b < |s[from..]| && s[from..][b] == x;
    assert s[from + b] == x;
  }

  lemma GatherSound(trace: seq<State>, acts: seq<Action>, k: nat)
    requires Run(trace, acts) && k <= |acts| && trace[k].phase.Gathering?
    ensures Dense(trace[k].journal) && Distinct(trace[k].phase.got)
    ensures forall d :: d in trace[k].phase.got ==> d in trace[k].journal
  {
    RunKeepsInv(trace, acts, k);
  }

  /** If timestamps never run backwards inside an instance, survival is rank alone: fewer than 50
      gathered events sort after the event, or its instance is absent from the window and at the first
      poll fewer than 1000 do. */
  lemma MonotoneSurvival(trace: seq<State>, acts: seq<Action>, k: nat, polled: seq<Event>, e: Event)
    requires Run(trace, acts) && SnapshotRead(trace, acts, k) && MonotoneTs(trace[k].journal)
    requires e in trace[k].phase.got
    ensures var got := trace[k].phase.got;
            Survives(got, polled, e) <==>
              || |Later(got, e)| < 50
              || ((forall x :: x in Window(got, true) ==> x.inst != e.inst) && |Later(polled, e)| < 1000)
  {
    var j, got := trace[k].journal, trace[k].phase.got;
    GatherSound(trace, acts, k);
    WindowIsRank(j, got, SNAPSHOT, e);
    if e !in Window(got, true) {
      forall x | x in Window(got, true) && x.inst == e.inst ensures x.seqNo > e.seqNo { PassedOver(j, got, e, x); }
    }
  }
}
