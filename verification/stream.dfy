/** The live journal delivery protocol as interleaved steps: `stream_events` of
    api/src/agentx_api/app.py polling an append-only journal while others append, and a browser
    that reconnects. A read of all instances is one step per instance, so it is never a global cut. */
module Stream {
  import opened Sequences
  import opened Sorting
  import opened Journal
  import opened Reads

  const SNAPSHOT := 50
  const WINDOW := 1000
  const IDLE_LIMIT := 300

  datatype Phase =
    | Offline
    | Gathering(snapshot: bool, todo: seq<string>, got: seq<Event>, at: map<string, nat>, begin: nat)
    | Sending(initial: bool, queue: seq<Event>, begun: nat)
    | Polling

  /** `journal` to `received` are the system; the fields after `received` are history no step
      tests: frames and reads of the current connection (`known` is its last complete gather and
      `readTo`/`snapTo` count, per instance, what it and the snapshot covered), the events outside
      the window when first read (`cut`), the journal length at the first connection (`start`), and
      the length known to be fully sent (`synced`). `at`, `begin` and `begun` are history too. */
  datatype State = State(
    journal: seq<Event>, registered: set<string>, phase: Phase,
    cursor: map<string, nat>, idle: nat, received: seq<Event>,
    sent: seq<Event>, known: seq<Event>, readTo: map<string, nat>, snapTo: map<string, nat>,
    cut: set<Event>, start: nat, synced: nat)

  datatype Action =
    | Append(event: Event) | Register(inst: string)
    | Connect(order: seq<string>) | Disconnect | Stop | PollStart(order: seq<string>)
    | Read | Finish | Send | SendDone

  function Get(m: map<string, nat>, i: string): nat { if i in m then m[i] else 0 }

  function Unseen(cursor: map<string, nat>): Event -> bool { (e: Event) => e.seqNo > Get(cursor, e.inst) }

  ghost predicate Enumerates(order: seq<string>, s: set<string>) {
    Distinct(order) && forall i :: i in order <==> i in s
  }

  ghost predicate Enabled(s: State, a: Action) {
    match a
    case Append(e) => !KeyUsed(s.journal, e)
    case Register(_) => true
    case Connect(order) => s.phase.Offline? && Enumerates(order, s.registered)
    case Disconnect => true
    case Stop => s.phase.Polling? && s.idle >= IDLE_LIMIT
    case PollStart(order) => s.phase.Polling? && s.idle < IDLE_LIMIT && Enumerates(order, s.registered)
    case Read => s.phase.Gathering? && s.phase.todo != []
    case Finish => s.phase.Gathering? && s.phase.todo == []
    case Send => s.phase.Sending? && s.phase.queue != []
    case SendDone => s.phase.Sending? && s.phase.queue == []
  }

  function Window(got: seq<Event>, snapshot: bool): seq<Event> {
    LastN(Sort(KeyLe, got), if snapshot then SNAPSHOT else WINDOW)
  }

  /** The snapshot loop takes the maximum, the poll loop overwrites. */
  function Advance(cursor: map<string, nat>, e: Event, snapshot: bool): map<string, nat> {
    cursor[e.inst := if snapshot && Get(cursor, e.inst) > e.seqNo then Get(cursor, e.inst) else e.seqNo]
  }

  function FinishSnapshot(s: State): State
    requires s.phase.Gathering?
  {
    s.(phase := Sending(true, Window(s.phase.got, true), s.phase.begin),
       known := s.phase.got, readTo := s.phase.at, snapTo := s.phase.at)
  }

  function FinishPoll(s: State): State
    requires s.phase.Gathering?
  {
    var got, window := s.phase.got, Window(s.phase.got, false);
    var unseen := Filter(Unseen(s.cursor), window);
    var s1 := s.(known := got, readTo := s.phase.at,
                 cut := s.cut + set e | e in got && e !in s.known && e !in window);
    if unseen != [] then s1.(idle := 0, phase := Sending(false, unseen, s.phase.begin))
    else s1.(idle := s.idle + 1, phase := Polling, synced := s.phase.begin)
  }

  ghost function Do(s: State, a: Action): State
    requires Enabled(s, a)
  {
    match a
    case Append(e) => s.(journal := s.journal + [Stamp(s.journal, e)])
    case Register(i) => s.(registered := s.registered + {i})
    case Connect(order) =>
      s.(phase := Gathering(true, order, [], map[], |s.journal|), cursor := map[], idle := 0,
         sent := [], known := [], readTo := map[], snapTo := map[], cut := {})
    case Disconnect => s.(phase := Offline)
    case Stop => s.(phase := Offline)
    case PollStart(order) => s.(phase := Gathering(false, order, [], map[], |s.journal|))
    case Read =>
      var i := s.phase.todo[0];
      s.(phase := s.phase.(todo := s.phase.todo[1..], got := s.phase.got + ReadInstance(s.journal, i),
                           at := s.phase.at[i := |Log(s.journal, i)|]))
    case Finish => if s.phase.snapshot then FinishSnapshot(s) else FinishPoll(s)
    case Send =>
      var e := s.phase.queue[0];
      s.(cursor := Advance(s.cursor, e, s.phase.initial), sent := s.sent + [e],
         received := s.received + [e], phase := s.phase.(queue := s.phase.queue[1..]))
    case SendDone => s.(phase := Polling, synced := s.phase.begun)
  }

  function Queue(s: State): seq<Event> { if s.phase.Sending? then s.phase.queue else [] }

  ghost predicate Init(s: State) {
    && Dense(s.journal) && s.phase.Offline? && s.received == [] && s.sent == [] && s.known == []
    && s.cursor == map[] && s.readTo == map[] && s.snapTo == map[] && s.cut == {}
    && s.start == s.synced == |s.journal|
  }

  // ---- What every step keeps -----------------------------------------------------------------

  /** A gather covers exactly the events `at` counts: a prefix of each log, whenever it was read. */
  ghost predicate Covers(j: seq<Event>, got: seq<Event>, at: map<string, nat>) {
    && Distinct(got)
    && (forall e :: e in got <==> e in j && e.seqNo <= Get(at, e.inst))
    && (forall i :: Get(at, i) <= |Log(j, i)|)
  }

  ghost predicate ReadsOk(s: State) {
    && Dense(s.journal) && Covers(s.journal, s.known, s.readTo)
    && (forall i :: Get(s.snapTo, i) <= Get(s.readTo, i) && Get(s.cursor, i) <= Get(s.readTo, i))
    && (forall i :: i in s.readTo ==> i in s.registered)
    && (forall e :: e in s.sent || e in Queue(s) ==> e in s.known)
    && (forall e :: e in s.sent ==> e in s.received)
    && (forall e :: e in s.received ==> e in s.journal)
  }

  /** Every instance read so far was read after the gather began. */
  ghost predicate ReadsPast(j: seq<Event>, at: map<string, nat>, begin: nat) {
    && begin <= |j|
    && forall p :: 0 <= p < begin && j[p].inst in at ==> j[p].seqNo <= at[j[p].inst]
  }

  ghost predicate GatherFacts(j: seq<Event>, registered: set<string>, readTo: map<string, nat>,
                              todo: seq<string>, got: seq<Event>, at: map<string, nat>, begin: nat) {
    && Covers(j, got, at) && Distinct(todo)
    && (forall i :: i in todo ==> i !in at && i in registered)
    && (forall i :: i in at ==> i in registered && Get(readTo, i) <= at[i])
    && (forall i :: i in readTo ==> i in at || i in todo)
    && ReadsPast(j, at, begin)
  }

  ghost predicate GatherOk(s: State) {
    s.phase.Gathering? ==>
      && GatherFacts(s.journal, s.registered, s.readTo, s.phase.todo, s.phase.got, s.phase.at, s.phase.begin)
      && (s.phase.snapshot ==>
            s.readTo == map[] && s.snapTo == map[] && s.cursor == map[] && s.sent == [] && s.cut == {})
  }

  /** Of the events a poll was first to read, exactly those outside its window are never sent. */
  ghost predicate DeliveryOk(s: State) {
    && (!s.phase.Offline? ==> forall e :: e in s.known && Get(s.snapTo, e.inst) < e.seqNo ==>
          ((e in s.sent || e in Queue(s)) <==> e !in s.cut))
    && (forall e :: e in s.cut ==>
          && e in s.known && Get(s.snapTo, e.inst) < e.seqNo && |Later(s.known, e)| >= WINDOW
          && e !in s.sent && e !in Queue(s))
  }

  ghost predicate Inv(s: State) { ReadsOk(s) && GatherOk(s) && DeliveryOk(s) }

  lemma LogsStartAtOne(j: seq<Event>)
    requires Dense(j)
    ensures forall e :: e in j ==> e.seqNo >= 1
  {
  }

  lemma InitInv(s: State)
    requires Init(s)
    ensures Inv(s)
  {
    LogsStartAtOne(s.journal);
  }

  /** An appended event is beyond every earlier read. */
  lemma CoversSnoc(j: seq<Event>, got: seq<Event>, at: map<string, nat>, e: Event)
    requires Covers(j, got, at) && e.seqNo == |Log(j, e.inst)| + 1
    ensures Covers(j + [e], got, at)
  {
    forall i ensures Get(at, i) <= |Log(j + [e], i)| {
      FilterSnoc(OfInstance(i), j, e);
    }
    assert forall x :: x in j + [e] <==> x in j || x == e;
    assert Get(at, e.inst) <= |Log(j, e.inst)|;
  }

  lemma AppendKeepsReads(s: State, x: Event)
    requires ReadsOk(s) && x.seqNo == |Log(s.journal, x.inst)| + 1
    ensures ReadsOk(s.(journal := s.journal + [x]))
  {
    DenseSnoc(s.journal, x);
    CoversSnoc(s.journal, s.known, s.readTo, x);
    assert forall e :: e in s.journal ==> e in s.journal + [x];
  }

  lemma AppendKeepsGather(s: State, x: Event)
    requires GatherOk(s) && x.seqNo == |Log(s.journal, x.inst)| + 1
    ensures GatherOk(s.(journal := s.journal + [x]))
  {
    if s.phase.Gathering? {
      CoversSnoc(s.journal, s.phase.got, s.phase.at, x);
      assert ReadsPast(s.journal + [x], s.phase.at, s.phase.begin);
    }
  }

  lemma AppendKeepsInv(s: State, e: Event)
    requires Inv(s) && !KeyUsed(s.journal, e)
    ensures Inv(Do(s, Append(e)))
  {
    AppendKeepsReads(s, Stamp(s.journal, e));
    AppendKeepsGather(s, Stamp(s.journal, e));
    assert DeliveryOk(Do(s, Append(e)));
  }

  lemma ConnectKeepsInv(s: State, order: seq<string>)
    requires Inv(s) && Enabled(s, Connect(order))
    ensures Inv(Do(s, Connect(order)))
  {
    LogsStartAtOne(s.journal);
  }

  lemma PollStartKeepsInv(s: State, order: seq<string>)
    requires Inv(s) && Enabled(s, PollStart(order))
    ensures Inv(Do(s, PollStart(order)))
  {
    LogsStartAtOne(s.journal);
  }

  lemma ReadCovers(j: seq<Event>, got: seq<Event>, at: map<string, nat>, i: string)
    requires Dense(j) && Covers(j, got, at) && i !in at
    ensures Covers(j, got + ReadInstance(j, i), at[i := |Log(j, i)|])
  {
    ReadInstanceIsLog(j, i);
    var log, at' := Log(j, i), at[i := |Log(j, i)|];
    LogNumbered(j, i);
    DenseDistinct(j);
    FilterDistinct(OfInstance(i), j);
    forall e ensures e in got + log <==> e in j && e.seqNo <= Get(at', e.inst) {
      FilterMember(OfInstance(i), j, e);
      if e in j && e.inst == i {
        assert e in log;
        LogsStartAtOne(j);
        assert e !in got;
      }
    }
    forall a, b | 0 <= a < b < |got + log| ensures (got + log)[a] != (got + log)[b] {
      if a < |got| <= b {
        FilterMember(OfInstance(i), j, (got + log)[b]);
        LogsStartAtOne(j);
        assert (got + log)[a] in got;
      }
    }
  }

  lemma ReadReachesBegin(j: seq<Event>, at: map<string, nat>, begin: nat, i: string)
    requires Dense(j) && ReadsPast(j, at, begin)
    ensures ReadsPast(j, at[i := |Log(j, i)|], begin)
  {
    forall p | 0 <= p < begin && j[p].inst == i ensures j[p].seqNo <= |Log(j, i)| {
      SeqFollowsPosition(j, p, |j|);
      assert j[..|j|] == j;
    }
  }

  lemma ReadKeepsFacts(j: seq<Event>, registered: set<string>, readTo: map<string, nat>,
                       todo: seq<string>, got: seq<Event>, at: map<string, nat>, begin: nat)
    requires Dense(j) && GatherFacts(j, registered, readTo, todo, got, at, begin) && todo != []
    requires forall i :: Get(readTo, i) <= |Log(j, i)|
    ensures GatherFacts(j, registered, readTo, todo[1..], got + ReadInstance(j, todo[0]),
                        at[todo[0] := |Log(j, todo[0])|], begin)
  {
    var i := todo[0];
    ReadCovers(j, got, at, i);
    ReadReachesBegin(j, at, begin, i);
    assert todo == [i] + todo[1..];
  }

  lemma ReadKeepsInv(s: State)
    requires Inv(s) && Enabled(s, Read)
    ensures Inv(Do(s, Read))
  {
    ReadKeepsFacts(s.journal, s.registered, s.readTo, s.phase.todo, s.phase.got, s.phase.at, s.phase.begin);
  }

  lemma FinishSnapshotKeepsInv(s: State)
    requires Inv(s) && Enabled(s, Finish) && s.phase.snapshot
    ensures Inv(Do(s, Finish))
  {
    var s' := Do(s, Finish);
    forall e | e in Queue(s') ensures e in s'.known { WindowMember(s.phase.got, SNAPSHOT, e); }
  }

  /** A poll gathers everything the connection gathered before. */
  lemma PollGathersMore(s: State)
    requires Inv(s) && Enabled(s, Finish) && !s.phase.snapshot
    ensures forall e :: e in s.known ==> e in s.phase.got
    ensures forall e :: e in s.phase.got && e !in s.known ==> e.seqNo > Get(s.readTo, e.inst)
    ensures forall i :: Get(s.readTo, i) <= Get(s.phase.at, i)
  {
    forall i ensures Get(s.readTo, i) <= Get(s.phase.at, i) {}
  }

  lemma PollQueue(s: State)
    requires Inv(s) && Enabled(s, Finish) && !s.phase.snapshot
    ensures forall e :: e in Queue(FinishPoll(s)) <==>
              e in s.phase.got && |Later(s.phase.got, e)| < WINDOW && e.seqNo > Get(s.cursor, e.inst)
    ensures forall e :: e in FinishPoll(s).cut <==>
              e in s.cut || (e in s.phase.got && e !in s.known && |Later(s.phase.got, e)| >= WINDOW)
  {
    var got, window := s.phase.got, Window(s.phase.got, false);
    forall e ensures e in window <==> e in got && |Later(got, e)| < WINDOW {
      if e in got { WindowIsRank(s.journal, got, WINDOW, e); }
      if e in window { WindowMember(got, WINDOW, e); }
    }
    forall e ensures e in Filter(Unseen(s.cursor), window) <==> e in window && e.seqNo > Get(s.cursor, e.inst) {
      FilterMember(Unseen(s.cursor), window, e);
    }
  }

  lemma PollCuts(s: State, e: Event)
    requires Inv(s) && Enabled(s, Finish) && !s.phase.snapshot && e in FinishPoll(s).cut
    ensures e in s.phase.got && Get(s.snapTo, e.inst) < e.seqNo && |Later(s.phase.got, e)| >= WINDOW
    ensures e !in s.sent && e !in Queue(FinishPoll(s))
  {
    PollGathersMore(s);
    PollQueue(s);
    if e in s.cut {
      LaterGrows(s.known, s.phase.got, e);
    } else {
      assert Get(s.snapTo, e.inst) <= Get(s.readTo, e.inst);
    }
  }

  lemma PollAccounts(s: State, e: Event)
    requires Inv(s) && Enabled(s, Finish) && !s.phase.snapshot
    requires e in s.phase.got && Get(s.snapTo, e.inst) < e.seqNo
    ensures (e in s.sent || e in Queue(FinishPoll(s))) <==> e !in FinishPoll(s).cut
  {
    PollGathersMore(s);
    PollQueue(s);
    if e in FinishPoll(s).cut {
      PollCuts(s, e);
    } else if e in s.known {
      assert e in s.sent || e in Queue(s);
    } else {
      assert Get(s.cursor, e.inst) <= Get(s.readTo, e.inst);
    }
  }

  /** A connection that knows what a poll gathered and accounts for it. */
  lemma AccountedFor(s: State, got: seq<Event>)
    requires s.known == got
    requires forall e :: e in s.cut ==>
               && e in got && Get(s.snapTo, e.inst) < e.seqNo && |Later(got, e)| >= WINDOW
               && e !in s.sent && e !in Queue(s)
    requires forall e :: e in got && Get(s.snapTo, e.inst) < e.seqNo ==>
               ((e in s.sent || e in Queue(s)) <==> e !in s.cut)
    ensures DeliveryOk(s)
  {
  }

  lemma PollDelivers(s: State)
    requires Inv(s) && Enabled(s, Finish) && !s.phase.snapshot
    ensures DeliveryOk(FinishPoll(s))
  {
    forall e | e in FinishPoll(s).cut
      ensures e in s.phase.got && Get(s.snapTo, e.inst) < e.seqNo && |Later(s.phase.got, e)| >= WINDOW
      ensures e !in s.sent && e !in Queue(FinishPoll(s))
    {
      PollCuts(s, e);
    }
    forall e | e in s.phase.got && Get(s.snapTo, e.inst) < e.seqNo
      ensures (e in s.sent || e in Queue(FinishPoll(s))) <==> e !in FinishPoll(s).cut
    {
      PollAccounts(s, e);
    }
    AccountedFor(FinishPoll(s), s.phase.got);
  }

  lemma FinishPollKeepsInv(s: State)
    requires Inv(s) && Enabled(s, Finish) && !s.phase.snapshot
    ensures Inv(FinishPoll(s))
  {
    PollGathersMore(s);
    PollQueue(s);
    PollDelivers(s);
  }

  lemma SendKeepsInv(s: State)
    requires Inv(s) && Enabled(s, Send)
    ensures Inv(Do(s, Send))
  {
    var e := s.phase.queue[0];
    assert s.phase.queue == [e] + s.phase.queue[1..];
    assert e in s.known;
    var s' := Do(s, Send);
    forall x ensures x in s'.sent || x in Queue(s') <==> x in s.sent || x in Queue(s) {}
  }

  lemma RegisterKeepsInv(s: State, i: string)
    requires Inv(s)
    ensures Inv(Do(s, Register(i)))
  {
  }

  lemma SendDoneKeepsInv(s: State)
    requires Inv(s) && Enabled(s, SendDone)
    ensures Inv(Do(s, SendDone))
  {
  }

  lemma HangupKeepsInv(s: State, a: Action)
    requires Inv(s) && Enabled(s, a) && (a.Disconnect? || a.Stop?)
    ensures Inv(Do(s, a))
  {
  }

  lemma StepKeepsInv(s: State, a: Action)
    requires Inv(s) && Enabled(s, a)
    ensures Inv(Do(s, a))
  {
    match a
    case Append(e) => AppendKeepsInv(s, e);
    case Connect(order) => ConnectKeepsInv(s, order);
    case PollStart(order) => PollStartKeepsInv(s, order);
    case Read => ReadKeepsInv(s);
    case Finish => if s.phase.snapshot { FinishSnapshotKeepsInv(s); } else { FinishPollKeepsInv(s); }
    case Send => SendKeepsInv(s);
    case Register(i) => RegisterKeepsInv(s, i);
    case SendDone => SendDoneKeepsInv(s);
    case _ => HangupKeepsInv(s, a);
  }
}
