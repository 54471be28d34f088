/** What the delivery protocol guarantees over whole runs, for every interleaving. */
module Delivery {
  import opened Sequences
  import opened Sorting
  import opened Journal
  import opened Reads
  import opened Stream

  ghost predicate Run(trace: seq<State>, acts: seq<Action>) {
    && |trace| == |acts| + 1 && Init(trace[0])
    && forall k {:trigger acts[k]} :: 0 <= k < |acts| ==>
         Enabled(trace[k], acts[k]) && trace[k + 1] == Do(trace[k], acts[k])
  }

  lemma {:induction false} RunKeepsInv(trace: seq<State>, acts: seq<Action>, k: nat)
    requires Run(trace, acts) && k <= |acts|
    ensures Inv(trace[k])
  {
    if k == 0 {
      InitInv(trace[0]);
    } else {
      RunKeepsInv(trace, acts, k - 1);
      StepKeepsInv(trace[k - 1], acts[k - 1]);
    }
  }

  // ---- Which events a connection delivers ----------------------------------------------------

  /** Step `k` completes a poll that is the first of its connection to read `e`. */
  ghost predicate FirstRead(trace: seq<State>, acts: seq<Action>, k: nat, e: Event) {
    && k < |acts| < |trace| && acts[k] == Finish && trace[k].phase.Gathering? && !trace[k].phase.snapshot
    && e in trace[k].phase.got && e !in trace[k].known
  }

  ghost predicate SameConnection(acts: seq<Action>, k: nat, m: nat) {
    k <= m <= |acts| && forall l :: k <= l < m ==> !acts[l].Connect?
  }

  /** `e` has been read after the snapshot, and `lost` tells whether it fell outside the window. */
  ghost predicate Fate(s: State, e: Event, lost: bool) {
    && e in s.known && Get(s.snapTo, e.inst) < e.seqNo
    && (s.phase.Gathering? ==> !s.phase.snapshot)
    && (e in s.cut <==> lost)
  }

  lemma FateDecided(s: State, e: Event)
    requires Inv(s) && Enabled(s, Finish) && !s.phase.snapshot && e in s.phase.got && e !in s.known
    ensures Fate(FinishPoll(s), e, |Later(s.phase.got, e)| >= WINDOW)
    ensures e in Queue(FinishPoll(s)) <==> |Later(s.phase.got, e)| < WINDOW
  {
    PollQueue(s);
    PollGathersMore(s);
    assert e !in s.cut;
  }

  lemma FateKept(s: State, a: Action, e: Event, lost: bool)
    requires Inv(s) && Enabled(s, a) && !a.Connect? && Fate(s, e, lost)
    ensures Fate(Do(s, a), e, lost)
  {
    if a == Finish {
      PollGathersMore(s);
      assert e in s.phase.got;
      assert e in FinishPoll(s).cut <==> e in s.cut;
    }
  }

  lemma RunDoes(trace: seq<State>, acts: seq<Action>, k: nat)
    requires Run(trace, acts) && k < |acts|
    ensures Enabled(trace[k], acts[k]) && trace[k + 1] == Do(trace[k], acts[k])
  {
  }

  lemma RunStep(trace: seq<State>, acts: seq<Action>, k: nat)
    requires Run(trace, acts) && k < |acts|
    ensures Inv(trace[k]) && Enabled(trace[k], acts[k]) && trace[k + 1] == Do(trace[k], acts[k])
  {
    RunKeepsInv(trace, acts, k);
  }

  lemma FateAtFirstRead(trace: seq<State>, acts: seq<Action>, k: nat, e: Event)
    requires Run(trace, acts) && FirstRead(trace, acts, k, e)
    ensures Fate(trace[k + 1], e, |Later(trace[k].phase.got, e)| >= WINDOW)
    ensures e in Queue(trace[k + 1]) <==> |Later(trace[k].phase.got, e)| < WINDOW
  {
    RunStep(trace, acts, k);
    FateDecided(trace[k], e);
  }

  lemma {:induction false} FateIsFixed(trace: seq<State>, acts: seq<Action>, k: nat, m: nat, e: Event, lost: bool)
    requires Run(trace, acts) && k <= m && SameConnection(acts, k, m) && Fate(trace[k], e, lost)
    ensures Fate(trace[m], e, lost)
  {
    if m <= k {
    } else {
      FateIsFixed(trace, acts, k, m - 1, e, lost);
      RunStep(trace, acts, m - 1);
      FateKept(trace[m - 1], acts[m - 1], e, lost);
    }
  }

  /** Delivery is decided at the first read, whatever the timestamps: the event is sent by that
      very poll if fewer than 1000 gathered events sort after it, and otherwise never again on
      this connection. */
  lemma FirstReadDecides(trace: seq<State>, acts: seq<Action>, k: nat, m: nat, e: Event)
    requires Run(trace, acts) && FirstRead(trace, acts, k, e) && k < m && SameConnection(acts, k, m)
    ensures |Later(trace[k].phase.got, e)| < 1000 ==>
              && e in Queue(trace[k + 1])
              && (trace[m].phase.Polling? || trace[m].phase.Gathering? ==> e in trace[m].sent)
    ensures |Later(trace[k].phase.got, e)| >= 1000 ==> e !in trace[m].sent && e !in Queue(trace[m])
  {
    FateAtFirstRead(trace, acts, k, e);
    FateIsFixed(trace, acts, k + 1, m, e, |Later(trace[k].phase.got, e)| >= WINDOW);
    RunKeepsInv(trace, acts, m);
    assert DeliveryOk(trace[m]);
  }

  /** Steps `k` to `m` are one gather: it starts at `k` and has read every instance at `m`. */
  ghost predicate OneGather(trace: seq<State>, acts: seq<Action>, k: nat, m: nat) {
    && k < m < |trace| && m <= |acts| && (acts[k].PollStart? || acts[k].Connect?)
    && (forall l :: k < l < m ==> acts[l].Append? || acts[l].Register? || acts[l].Read?)
  }

  lemma {:induction false} GatherCoversRegistered(trace: seq<State>, acts: seq<Action>, k: nat, m: nat)
    requires Run(trace, acts) && OneGather(trace, acts, k, m)
    ensures trace[m].phase.Gathering? && trace[m].phase.begin == |trace[k].journal|
    ensures |trace[k].journal| <= |trace[m].journal|
    ensures trace[m].journal[..|trace[k].journal|] == trace[k].journal
    ensures forall i :: i in trace[k].registered ==> i in trace[m].phase.at || i in trace[m].phase.todo
  {
    assert Enabled(trace[m - 1], acts[m - 1]) && trace[m] == Do(trace[m - 1], acts[m - 1]);
    if m <= k + 1 {
    } else {
      GatherCoversRegistered(trace, acts, k, m - 1);
      assert acts[m - 1].Append? || acts[m - 1].Register? || acts[m - 1].Read?;
      if acts[m - 1].Read? {
        var todo := trace[m - 1].phase.todo;
        assert todo == [todo[0]] + todo[1..];
      }
    }
  }

  /** Although a gather is no global cut, it misses nothing appended before it began: so an event
      of a registered instance is read, and by `FirstReadDecides` sent, by the next completed poll. */
  lemma GatherReadsAllEarlier(trace: seq<State>, acts: seq<Action>, k: nat, m: nat, e: Event)
    requires Run(trace, acts) && OneGather(trace, acts, k, m)
    requires trace[m].phase.Gathering? && trace[m].phase.todo == []
    requires e in trace[k].journal && e.inst in trace[k].registered
    ensures e in trace[m].phase.got
  {
    GatherCoversRegistered(trace, acts, k, m);
    RunKeepsInv(trace, acts, m);
    var p :| 0 <= p < |trace[k].journal| && trace[k].journal[p] == e;
    assert trace[m].journal[p] == trace[k].journal[p];
  }

  // ---- Order of the frames -------------------------------------------------------------------

  /** Per instance, strictly increasing sequence numbers. */
  ghost predicate Increasing(f: seq<Event>) {
    forall a, b :: 0 <= a < b < |f| && f[a].inst == f[b].inst ==> f[a].seqNo < f[b].seqNo
  }

  ghost predicate FramesOk(s: State) {
    MonotoneTs(s.journal) ==>
      && Increasing(s.sent + Queue(s))
      && forall e :: e in s.sent ==> e.seqNo <= Get(s.cursor, e.inst)
  }

  lemma SortIncreasing(j: seq<Event>, got: seq<Event>)
    requires Dense(j) && MonotoneTs(j) && Distinct(got) && (forall e :: e in got ==> e in j)
    ensures Increasing(Sort(KeyLe, got))
  {
    SortDistinct(got);
    DenseDistinct(j);
    var s := Sort(KeyLe, got);
    forall a, b | 0 <= a < b < |s| && s[a].inst == s[b].inst ensures s[a].seqNo < s[b].seqNo {
      assert KeyLe(s[a], s[b]) && s[a] != s[b];
      assert s[a] in s && s[b] in s;
      var p :| 0 <= p < |j| && j[p] == s[a];
      var q :| 0 <= q < |j| && j[q] == s[b];
      assert p != q;
    }
  }

  lemma WindowIncreasing(j: seq<Event>, got: seq<Event>, snapshot: bool)
    requires Dense(j) && MonotoneTs(j) && Distinct(got) && (forall e :: e in got ==> e in j)
    ensures Increasing(Window(got, snapshot))
  {
    SortIncreasing(j, got);
  }

  lemma {:induction false} FilterIncreasing(p: Event -> bool, s: seq<Event>)
    requires Increasing(s)
    ensures Increasing(Filter(p, s))
  {
    if s == [] {
    } else {
      assert s == [s[0]] + s[1..];
      assert Increasing(s[1..]);
      FilterIncreasing(p, s[1..]);
      forall b | 0 <= b < |Filter(p, s[1..])| && Filter(p, s[1..])[b].inst == s[0].inst
        ensures s[0].seqNo < Filter(p, s[1..])[b].seqNo
      {
        FilterMember(p, s[1..], Filter(p, s[1..])[b]);
      }
    }
  }

  lemma IncreasingConcat(a: seq<Event>, b: seq<Event>, cursor: map<string, nat>)
    requires Increasing(a) && Increasing(b)
    requires forall e :: e in a ==> e.seqNo <= Get(cursor, e.inst)
    requires forall e :: e in b ==> e.seqNo > Get(cursor, e.inst)
    ensures Increasing(a + b)
  {
    forall x, y | 0 <= x < |a| && 0 <= y < |b| && a[x].inst == b[y].inst ensures a[x].seqNo < b[y].seqNo {
      assert a[x] in a && b[y] in b;
    }
  }

  lemma FinishKeepsFrames(s: State)
    requires Inv(s) && FramesOk(s) && Enabled(s, Finish) && MonotoneTs(s.journal)
    ensures FramesOk(Do(s, Finish))
  {
    var got := s.phase.got;
    WindowIncreasing(s.journal, got, s.phase.snapshot);
    if s.phase.snapshot {
      assert [] + Window(got, true) == Window(got, true);
    } else {
      var q := Filter(Unseen(s.cursor), Window(got, false));
      FilterIncreasing(Unseen(s.cursor), Window(got, false));
      forall e | e in q ensures e.seqNo > Get(s.cursor, e.inst) {
        FilterMember(Unseen(s.cursor), Window(got, false), e);
      }
      assert s.sent + Queue(s) == s.sent;
      IncreasingConcat(s.sent, q, s.cursor);
      assert Queue(FinishPoll(s)) == q;
    }
  }

  lemma LastIsHighest(sent: seq<Event>, x: Event, rest: seq<Event>, e: Event)
    requires Increasing(sent + ([x] + rest)) && e in sent && e.inst == x.inst
    ensures e.seqNo < x.seqNo
  {
    var all := sent + ([x] + rest);
    var k :| 0 <= k < |sent| && sent[k] == e;
    assert all[k] == e && all[|sent|] == x;
  }

  lemma SendKeepsSequence(s: State)
    requires Enabled(s, Send)
    ensures s.phase.queue == [s.phase.queue[0]] + s.phase.queue[1..]
    ensures Do(s, Send).sent + Queue(Do(s, Send)) == s.sent + Queue(s)
  {
  }

  /** Everything sent of the next frame's instance has a lower number. */
  lemma NextIsHighest(s: State, e: Event)
    requires Enabled(s, Send) && Increasing(s.sent + Queue(s)) && e in s.sent && e.inst == s.phase.queue[0].inst
    ensures e.seqNo < s.phase.queue[0].seqNo
  {
    SendKeepsSequence(s);
    LastIsHighest(s.sent, s.phase.queue[0], s.phase.queue[1..], e);
  }

  lemma SendKeepsFrames(s: State)
    requires FramesOk(s) && Enabled(s, Send) && MonotoneTs(s.journal)
    ensures FramesOk(Do(s, Send))
  {
    var x := s.phase.queue[0];
    SendKeepsSequence(s);
    forall e | e in s.sent && e.inst == x.inst ensures e.seqNo < x.seqNo { NextIsHighest(s, e); }
  }

  lemma DropQueueKeepsFrames(s: State, s': State)
    requires FramesOk(s) && s'.journal == s.journal && s'.sent == s.sent && s'.cursor == s.cursor
    requires Queue(s') == [] || Queue(s') == Queue(s)
    ensures FramesOk(s')
  {
    if MonotoneTs(s.journal) {
      assert s.sent == (s.sent + Queue(s))[..|s.sent|];
      assert s'.sent + [] == s'.sent;
    }
  }

  lemma AppendKeepsFrames(s: State, e: Event)
    requires FramesOk(s) && Enabled(s, Append(e))
    ensures FramesOk(Do(s, Append(e)))
  {
    var j' := s.journal + [Stamp(s.journal, e)];
    assert forall p :: 0 <= p < |s.journal| ==> j'[p] == s.journal[p];
    assert MonotoneTs(j') ==> MonotoneTs(s.journal);
  }

  lemma ConnectKeepsFrames(s: State, order: seq<string>)
    requires Enabled(s, Connect(order))
    ensures FramesOk(Do(s, Connect(order)))
  {
    assert Do(s, Connect(order)).sent + Queue(Do(s, Connect(order))) == [];
  }

  lemma QuietKeepsFrames(s: State, a: Action)
    requires FramesOk(s) && Enabled(s, a)
    requires a.Register? || a.Disconnect? || a.Stop? || a.PollStart? || a.Read? || a.SendDone?
    ensures FramesOk(Do(s, a))
  {
    DropQueueKeepsFrames(s, Do(s, a));
  }

  lemma SkewedFrames(s: State)
    requires !MonotoneTs(s.journal)
    ensures FramesOk(s)
  {
  }

  lemma FinishKeepsJournal(s: State)
    requires Enabled(s, Finish)
    ensures Do(s, Finish).journal == s.journal
  {
  }

  lemma FinishFrames(s: State)
    requires Inv(s) && FramesOk(s) && Enabled(s, Finish)
    ensures FramesOk(Do(s, Finish))
  {
    FinishKeepsJournal(s);
    if MonotoneTs(s.journal) { FinishKeepsFrames(s); } else { SkewedFrames(Do(s, Finish)); }
  }

  lemma SendFrames(s: State)
    requires Inv(s) && FramesOk(s) && Enabled(s, Send)
    ensures FramesOk(Do(s, Send))
  {
    if MonotoneTs(s.journal) { SendKeepsFrames(s); } else { SkewedFrames(Do(s, Send)); }
  }

  lemma StepKeepsFrames(s: State, a: Action)
    requires Inv(s) && FramesOk(s) && Enabled(s, a)
    ensures FramesOk(Do(s, a))
  {
    match a
    case Append(e) => AppendKeepsFrames(s, e);
    case Finish => FinishFrames(s);
    case Send => SendFrames(s);
    case Connect(order) => ConnectKeepsFrames(s, order);
    case _ => QuietKeepsFrames(s, a);
  }

  /** If timestamps never run backwards inside an instance, the frames of each instance are
      strictly increasing over the whole connection, snapshot and polls together. */
  lemma {:induction false} FramesIncrease(trace: seq<State>, acts: seq<Action>, k: nat)
    requires Run(trace, acts) && k <= |acts|
    ensures FramesOk(trace[k])
    ensures MonotoneTs(trace[k].journal) ==> Increasing(trace[k].sent)
  {
    if k > 0 {
      FramesIncrease(trace, acts, k - 1);
      RunKeepsInv(trace, acts, k - 1);
      StepKeepsFrames(trace[k - 1], acts[k - 1]);
    } else {
      assert trace[0].sent + Queue(trace[0]) == [];
    }
    if MonotoneTs(trace[k].journal) {
      assert trace[k].sent == (trace[k].sent + Queue(trace[k]))[..|trace[k].sent|];
    }
  }

  /** So an event passed over by its instance's frames is lost to the connection. */
  lemma SkippedIsLost(trace: seq<State>, acts: seq<Action>, k: nat, m: nat, e: Event, x: Event)
    requires Run(trace, acts) && k <= m <= |acts| && MonotoneTs(trace[m].journal)
    requires trace[k].sent <= trace[m].sent
    requires x in trace[k].sent && x.inst == e.inst && x.seqNo > e.seqNo && e !in trace[k].sent
    ensures e !in trace[m].sent
  {
    FramesIncrease(trace, acts, m);
    var f := trace[m].sent;
    var b :| 0 <= b < |trace[k].sent| && trace[k].sent[b] == x;
    forall a | 0 <= a < |f| ensures f[a] != e {
      if a < |trace[k].sent| {
        assert trace[k].sent[a] == f[a];
      } else {
        assert f[b] == x;
      }
    }
  }

  // ---- What the end of a poll settles --------------------------------------------------------

  /** What happens between the start of a poll and its end. */
  predicate DuringPoll(a: Action) {
    a.Append? || a.Register? || a.Read? || a.Finish? || a.Send? || a.SendDone?
  }

  /** One poll from start to end: it starts at `k` and is over, everything sent, at `m`. */
  ghost predicate PollCycle(trace: seq<State>, acts: seq<Action>, k: nat, m: nat) {
    && k < m <= |acts| < |trace| && acts[k].PollStart? && trace[m].phase.Polling?
    && forall l :: k < l < m ==> DuringPoll(acts[l])
  }

  /** The poll that began at journal length `begin` has read `e`, or still has its instance to read. */
  ghost predicate WillRead(s: State, begin: nat, e: Event) {
    && !s.phase.Offline?
    && (s.phase.Gathering? ==>
          !s.phase.snapshot && s.phase.begin == begin && (e.inst in s.phase.at || e.inst in s.phase.todo))
    && (!s.phase.Gathering? ==> e in s.known)
  }

  lemma GatheredEarlier(s: State, e: Event)
    requires Inv(s) && s.phase.Gathering? && e.inst in s.phase.at && e in s.journal[..s.phase.begin]
    ensures e in s.phase.got
  {
    var p :| 0 <= p < s.phase.begin && s.journal[..s.phase.begin][p] == e;
    assert s.journal[p] == e;
  }

  lemma WillReadStep(s: State, a: Action, begin: nat, e: Event)
    requires Inv(s) && Enabled(s, a) && DuringPoll(a) && WillRead(s, begin, e)
    requires begin <= |s.journal| && e in s.journal[..begin]
    ensures WillRead(Do(s, a), begin, e)
  {
    match a
    case Read => assert s.phase.todo == [s.phase.todo[0]] + s.phase.todo[1..];
    case Finish => GatheredEarlier(s, e);
    case _ =>
  }

  lemma JournalStep(s: State, a: Action)
    requires Enabled(s, a)
    ensures s.journal <= Do(s, a).journal
  {
  }

  lemma {:induction false} JournalPrefix(trace: seq<State>, acts: seq<Action>, k: nat, m: nat)
    requires Run(trace, acts) && k <= m <= |acts|
    ensures trace[k].journal <= trace[m].journal
  {
    if m <= k {
    } else {
      JournalPrefix(trace, acts, k, m - 1);
      RunDoes(trace, acts, m - 1);
      JournalStep(trace[m - 1], acts[m - 1]);
    }
  }

  lemma {:induction false} PollReads(trace: seq<State>, acts: seq<Action>, k: nat, m: nat, e: Event)
    requires Run(trace, acts) && k < m <= |acts| && acts[k].PollStart?
    requires forall l :: k < l < m ==> DuringPoll(acts[l])
    requires e in trace[k].journal && e.inst in trace[k].registered
    ensures WillRead(trace[m], |trace[k].journal|, e)
  {
    RunStep(trace, acts, m - 1);
    if m <= k + 1 {
    } else {
      PollReads(trace, acts, k, m - 1, e);
      JournalPrefix(trace, acts, k, m - 1);
      assert trace[m - 1].journal[..|trace[k].journal|] == trace[k].journal;
      WillReadStep(trace[m - 1], acts[m - 1], |trace[k].journal|, e);
    }
  }

  /** No loss under any interleaving and any timestamps: when a poll is over, every event of a
      registered instance appended before it began and after the snapshot's read has been sent,
      unless it was among those outside the window when first read. */
  lemma NoLoss(trace: seq<State>, acts: seq<Action>, k: nat, m: nat, e: Event)
    requires Run(trace, acts) && PollCycle(trace, acts, k, m)
    requires e in trace[k].journal && e.inst in trace[k].registered
    requires Get(trace[m].snapTo, e.inst) < e.seqNo
    ensures e in trace[m].sent <==> e !in trace[m].cut
  {
    PollReads(trace, acts, k, m, e);
    RunKeepsInv(trace, acts, m);
    assert DeliveryOk(trace[m]);
  }
}
