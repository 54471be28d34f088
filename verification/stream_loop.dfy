/** The stream generator's loops once nobody appends to the journal any more: why they end. */
module StreamLoop {
  import opened Sequences
  import opened Journal
  import opened Reads
  import opened Stream
  import opened Delivery
  import opened Stopping
  import opened Wrappers

  /** Cursors after sending a batch frame by frame. */
  function AdvanceAll(cursor: map<string, nat>, batch: seq<Event>, snapshot: bool): map<string, nat> {
    if batch == [] then cursor
    else Advance(AdvanceAll(cursor, batch[..|batch| - 1], snapshot), batch[|batch| - 1], snapshot)
  }

  /** Every poll strictly raises the cursor of each instance it sent for and moves no other,
      although it overwrites in timestamp order and may end below the highest number sent. */
  lemma {:induction false} PollRaisesCursors(cursor: map<string, nat>, unseen: seq<Event>, i: string)
    requires forall e :: e in unseen ==> e.seqNo > Get(cursor, e.inst)
    ensures var after := AdvanceAll(cursor, unseen, false);
            if exists e :: e in unseen && e.inst == i then
              Get(after, i) > Get(cursor, i) && exists e :: e in unseen && e.inst == i && e.seqNo == Get(after, i)
            else Get(after, i) == Get(cursor, i)
  {
    if unseen == [] {
    } else {
      var front, last := unseen[..|unseen| - 1], unseen[|unseen| - 1];
      assert unseen == front + [last];
      PollRaisesCursors(cursor, front, i);
      assert last in unseen;
    }
  }

  /** The snapshot loop ends with the highest number sent per instance. */
  lemma {:induction false} SnapshotCursorIsMax(recent: seq<Event>, i: string)
    ensures var c := Get(AdvanceAll(map[], recent, true), i);
            && (forall e :: e in recent && e.inst == i ==> e.seqNo <= c)
            && (c == 0 || exists e :: e in recent && e.inst == i && e.seqNo == c)
  {
    if recent == [] {
    } else {
      var front, last := recent[..|recent| - 1], recent[|recent| - 1];
      assert recent == front + [last];
      SnapshotCursorIsMax(front, i);
      assert last in recent;
    }
  }

  /** The poll loop ends with the number last sent, not the highest: a cursor may step back below a
      number sent before it. */
  lemma {:induction false} PollCursorIsLast(cursor: map<string, nat>, unseen: seq<Event>, i: string)
    ensures var own := Filter(OfInstance(i), unseen);
            Get(AdvanceAll(cursor, unseen, false), i) == if own == [] then Get(cursor, i) else own[|own| - 1].seqNo
  {
    if unseen == [] {
    } else {
      var front, last := unseen[..|unseen| - 1], unseen[|unseen| - 1];
      assert unseen == front + [last];
      PollCursorIsLast(cursor, front, i);
      FilterSnoc(OfInstance(i), front, last);
    }
  }

  lemma {:induction false} AdvanceConcat(cursor: map<string, nat>, a: seq<Event>, b: seq<Event>, snapshot: bool)
    ensures AdvanceAll(cursor, a + b, snapshot) == AdvanceAll(AdvanceAll(cursor, a, snapshot), b, snapshot)
  {
    if b == [] {
      assert a + b == a;
    } else {
      assert (a + b)[..|a + b| - 1] == a + b[..|b| - 1];
      AdvanceConcat(cursor, a, b[..|b| - 1], snapshot);
    }
  }

  /** How far the cursors are behind the journal. */
  function Lag(j: seq<Event>, order: seq<string>, cursor: map<string, nat>): int {
    if order == [] then 0 else |Log(j, order[0])| - Get(cursor, order[0]) + Lag(j, order[1..], cursor)
  }

  lemma {:induction false} LagFalls(j: seq<Event>, order: seq<string>, c: map<string, nat>, d: map<string, nat>)
    requires forall i :: i in order ==> Get(c, i) <= Get(d, i)
    ensures Lag(j, order, d) <= Lag(j, order, c)
    ensures (exists i :: i in order && Get(c, i) < Get(d, i)) ==> Lag(j, order, d) < Lag(j, order, c)
  {
    if order == [] {
    } else {
      assert order == [order[0]] + order[1..];
      LagFalls(j, order[1..], c, d);
    }
  }

  lemma {:induction false} LagNonNegative(j: seq<Event>, order: seq<string>, c: map<string, nat>)
    requires forall i :: i in order ==> Get(c, i) <= |Log(j, i)|
    ensures Lag(j, order, c) >= 0
  {
    if order == [] {
    } else {
      LagNonNegative(j, order[1..], c);
    }
  }

  function Same(n: nat, j: seq<Event>): seq<seq<Event>> { seq(n, _ => j) }

  lemma {:induction false} GatheredFrom(order: seq<string>, j: seq<Event>, e: Event)
    requires Dense(j) && e in Gather(order, Same(|order|, j))
    ensures e in j && e.inst in order
  {
    if order == [] {
    } else {
      var front, last := order[..|order| - 1], order[|order| - 1];
      assert Same(|order|, j)[..|front|] == Same(|front|, j);
      ReadInstanceIsLog(j, last);
      FilterMember(OfInstance(last), j, e);
      if e in Gather(front, Same(|front|, j)) { GatheredFrom(front, j, e); }
    }
  }

  lemma WindowEvents(order: seq<string>, j: seq<Event>, limit: int, e: Event)
    requires Dense(j) && e in JournalEvents(Everything(order), Same(|order|, j), None, limit)
    ensures e in j && e.inst in order && e.seqNo <= |Log(j, e.inst)|
  {
    var got := Gather(order, Same(|order|, j));
    WindowMember(got, limit, e);
    GatheredFrom(order, j, e);
    var p :| 0 <= p < |j| && j[p] == e;
    SeqFollowsPosition(j, p, |j|);
    assert j[..|j|] == j;
  }

  /** The two emitting loops: update the cursor, then send the frame. */
  method SendBatch(frames: seq<Event>, cursor: map<string, nat>, batch: seq<Event>, snapshot: bool)
    returns (frames': seq<Event>, cursor': map<string, nat>)
    ensures frames' == frames + batch && cursor' == AdvanceAll(cursor, batch, snapshot)
  {
    frames', cursor' := frames, cursor;
    for k := 0 to |batch|
      invariant frames' == frames + batch[..k] && cursor' == AdvanceAll(cursor, batch[..k], snapshot)
    {
      assert batch[..k + 1][..k] == batch[..k];
      cursor' := Advance(cursor', batch[k], snapshot);
      frames' := frames' + [batch[k]];
    }
    assert batch[..|batch|] == batch;
  }

  lemma UnseenOf(cursor: map<string, nat>, current: seq<Event>)
    ensures forall e :: e in Filter(Unseen(cursor), current) <==> e in current && Unseen(cursor)(e)
    ensures forall e :: e in Filter(Unseen(cursor), current) ==> e.seqNo > Get(cursor, e.inst)
  {
    forall e ensures e in Filter(Unseen(cursor), current) <==> e in current && Unseen(cursor)(e) {
      FilterMember(Unseen(cursor), current, e);
    }
  }

  lemma SnapshotBounded(order: seq<string>, j: seq<Event>, recent: seq<Event>)
    requires Dense(j) && recent == JournalEvents(Everything(order), Same(|order|, j), None, SNAPSHOT)
    ensures forall i :: Get(AdvanceAll(map[], recent, true), i) <= |Log(j, i)|
  {
    forall i ensures Get(AdvanceAll(map[], recent, true), i) <= |Log(j, i)| {
      SnapshotCursorIsMax(recent, i);
      forall e | e in recent ensures e.seqNo <= |Log(j, e.inst)| { WindowEvents(order, j, SNAPSHOT, e); }
    }
  }

  lemma PollProgress(order: seq<string>, j: seq<Event>, c: map<string, nat>, unseen: seq<Event>)
    requires Dense(j) && unseen != [] && (forall i :: Get(c, i) <= |Log(j, i)|)
    requires forall e :: e in unseen ==> e.seqNo > Get(c, e.inst)
    requires forall e :: e in unseen ==> e in JournalEvents(Everything(order), Same(|order|, j), None, WINDOW)
    ensures var d := AdvanceAll(c, unseen, false);
            (forall i :: Get(d, i) <= |Log(j, i)|) && Lag(j, order, d) < Lag(j, order, c) && d != c
  {
    var d := AdvanceAll(c, unseen, false);
    forall e | e in unseen ensures e.inst in order && e.seqNo <= |Log(j, e.inst)| { WindowEvents(order, j, WINDOW, e); }
    forall i ensures Get(c, i) <= Get(d, i) <= |Log(j, i)| { PollRaisesCursors(c, unseen, i); }
    PollRaisesCursors(c, unseen, unseen[0].inst);
    assert unseen[0] in unseen;
    LagFalls(j, order, c, d);
  }

  /** What every poll of a journal nobody appends to any more would see. */
  function Frozen(order: seq<string>, j: seq<Event>): seq<Event> {
    JournalEvents(Everything(order), Same(|order|, j), None, WINDOW)
  }

  function Empties(n: nat): seq<seq<Event>> { seq(n, _ => []) }

  function Joined(batches: seq<seq<Event>>): seq<Event> {
    if batches == [] then [] else Joined(batches[..|batches| - 1]) + batches[|batches| - 1]
  }

  /** Each batch is what a poll finds unseen after the batches before it. */
  ghost predicate PolledInTurn(batches: seq<seq<Event>>, start: map<string, nat>, current: seq<Event>) {
    batches == [] ||
      var front := batches[..|batches| - 1];
      && PolledInTurn(front, start, current)
      && batches[|batches| - 1] == Filter(Unseen(AdvanceAll(start, Joined(front), false)), current)
  }

  /** Before each poll, 300 quiet ones in a row had not passed. */
  ghost predicate NotQuietBefore(quiet0: nat, batches: seq<seq<Event>>) {
    batches == [] ||
      var front := batches[..|batches| - 1];
      NotQuietBefore(quiet0, front) && !Quiet(Empties(quiet0) + front, 300)
  }

  lemma BatchAdds(batches: seq<seq<Event>>, batch: seq<Event>, start: map<string, nat>, current: seq<Event>)
    requires PolledInTurn(batches, start, current)
    requires batch == Filter(Unseen(AdvanceAll(start, Joined(batches), false)), current)
    ensures PolledInTurn(batches + [batch], start, current)
    ensures Joined(batches + [batch]) == Joined(batches) + batch
    ensures AdvanceAll(start, Joined(batches) + batch, false) ==
            AdvanceAll(AdvanceAll(start, Joined(batches), false), batch, false)
  {
    assert (batches + [batch])[..|batches + [batch]| - 1] == batches;
    AdvanceConcat(start, Joined(batches), batch, false);
  }

  lemma QuietAdds(quiet0: nat, batches: seq<seq<Event>>, batch: seq<Event>)
    requires NotQuietBefore(quiet0, batches) && Trailing(Empties(quiet0) + batches) < 300
    ensures NotQuietBefore(quiet0, batches + [batch])
    ensures Trailing(Empties(quiet0) + (batches + [batch])) ==
            if batch == [] then Trailing(Empties(quiet0) + batches) + 1 else 0
  {
    assert (batches + [batch])[..|batches + [batch]| - 1] == batches;
    QuietIff(Empties(quiet0) + batches, 300);
    TrailingSnoc(Empties(quiet0) + batches, batch);
    assert (Empties(quiet0) + batches) + [batch] == Empties(quiet0) + (batches + [batch]);
  }

  lemma {:induction false} TrailingEmpties(n: nat)
    ensures Trailing(Empties(n)) == n
  {
    if n == 0 {
    } else {
      TrailingEmpties(n - 1);
      assert Empties(n)[..n - 1] == Empties(n - 1);
    }
  }

  /** All that has been sent was to be read, and the first poll sent what was unseen at the start. */
  lemma {:induction false} PolledFrom(batches: seq<seq<Event>>, start: map<string, nat>, current: seq<Event>)
    requires PolledInTurn(batches, start, current)
    ensures forall e :: e in Joined(batches) ==> e in current
    ensures batches != [] ==> forall e :: e in current && Unseen(start)(e) ==> e in Joined(batches)
  {
    if batches == [] {
    } else {
      var front := batches[..|batches| - 1];
      PolledFrom(front, start, current);
      UnseenOf(AdvanceAll(start, Joined(front), false), current);
      if front == [] { UnseenOf(start, current); }
    }
  }

  /** After a quiet poll nothing is unseen. */
  lemma QuietSeesAll(batches: seq<seq<Event>>, start: map<string, nat>, current: seq<Event>)
    requires PolledInTurn(batches, start, current) && batches != [] && batches[|batches| - 1] == []
    ensures forall e :: e in current ==> !Unseen(AdvanceAll(start, Joined(batches), false))(e)
  {
    var front := batches[..|batches| - 1];
    assert Joined(batches) == Joined(front) + [] == Joined(front);
    UnseenOf(AdvanceAll(start, Joined(front), false), current);
  }

  /** Where the loop stands: what it has sent, its cursors and its idle count, given its polls so far. */
  ghost predicate InLoop(j: seq<Event>, order: seq<string>, start: map<string, nat>, idle0: nat,
                         cursor: map<string, nat>, idle: nat, batches: seq<seq<Event>>) {
    && (forall i :: Get(cursor, i) <= |Log(j, i)|)
    && cursor == AdvanceAll(start, Joined(batches), false)
    && PolledInTurn(batches, start, Frozen(order, j)) && NotQuietBefore(idle0, batches)
    && idle == Trailing(Empties(idle0) + batches)
  }

  lemma LoopStarts(j: seq<Event>, order: seq<string>, start: map<string, nat>, idle0: nat)
    requires forall i :: Get(start, i) <= |Log(j, i)|
    ensures InLoop(j, order, start, idle0, start, idle0, [])
  {
    TrailingEmpties(idle0);
    assert Empties(idle0) + [] == Empties(idle0);
  }

  lemma LoopPolls(j: seq<Event>, order: seq<string>, start: map<string, nat>, idle0: nat,
                  cursor: map<string, nat>, idle: nat, batches: seq<seq<Event>>)
    requires Dense(j) && InLoop(j, order, start, idle0, cursor, idle, batches) && idle < 300
    ensures var unseen := Filter(Unseen(cursor), Frozen(order, j));
            var cursor' := AdvanceAll(cursor, unseen, false);
            && InLoop(j, order, start, idle0, cursor', if unseen == [] then idle + 1 else 0, batches + [unseen])
            && Joined(batches + [unseen]) == Joined(batches) + unseen
            && (unseen == [] ==> cursor' == cursor)
            && (unseen != [] ==> Lag(j, order, cursor') < Lag(j, order, cursor))
  {
    var unseen := Filter(Unseen(cursor), Frozen(order, j));
    UnseenOf(cursor, Frozen(order, j));
    BatchAdds(batches, unseen, start, Frozen(order, j));
    QuietAdds(idle0, batches, unseen);
    if unseen != [] { PollProgress(order, j, cursor, unseen); }
  }

  lemma LoopEnds(j: seq<Event>, order: seq<string>, start: map<string, nat>, idle0: nat,
                 cursor: map<string, nat>, idle: nat, batches: seq<seq<Event>>)
    requires InLoop(j, order, start, idle0, cursor, idle, batches) && idle0 < 300 <= idle
    ensures Quiet(Empties(idle0) + batches, 300)
    ensures forall e :: e in Frozen(order, j) ==> !Unseen(cursor)(e)
    ensures forall e :: e in Frozen(order, j) && Unseen(start)(e) ==> e in Joined(batches)
    ensures forall e :: e in Joined(batches) ==> e in Frozen(order, j)
  {
    QuietIff(Empties(idle0) + batches, 300);
    PolledFrom(batches, start, Frozen(order, j));
    QuietSeesAll(batches, start, Frozen(order, j));
  }

  lemma Regroup(a: seq<Event>, b: seq<Event>, c: seq<Event>)
    ensures (a + b) + c == a + (b + c)
  {
  }

  /** The polling loop from any point of a connection once appends have stopped: whatever has been sent,
      wherever the cursors stand inside the journal, and however many quiet polls it has seen in a row. It
      starts counting again after every productive poll, yet ends: each such poll shrinks the lag. It ends
      with the 300th quiet poll in a row; then nothing in its window is unseen, and everything there that
      the cursors did not cover has been sent. */
  method PollUntilIdle(j: seq<Event>, order: seq<string>, sent: seq<Event>, start: map<string, nat>, idle0: nat)
    returns (frames: seq<Event>, cursor: map<string, nat>, ghost batches: seq<seq<Event>>)
    requires Dense(j) && (forall i :: Get(start, i) <= |Log(j, i)|) && idle0 < IDLE_LIMIT
    ensures frames == sent + Joined(batches) && cursor == AdvanceAll(start, Joined(batches), false)
    ensures PolledInTurn(batches, start, Frozen(order, j))
    ensures Quiet(Empties(idle0) + batches, 300) && NotQuietBefore(idle0, batches)
    ensures forall e :: e in frames ==> e in sent || e in Frozen(order, j)
    ensures forall e :: e in Frozen(order, j) ==> !Unseen(cursor)(e)
    ensures forall e :: e in Frozen(order, j) && Unseen(start)(e) ==> e in frames
  {
    frames, cursor, batches := sent, start, [];
    var idle: nat := idle0;
    LoopStarts(j, order, start, idle0);
    while idle < IDLE_LIMIT
      invariant frames == sent + Joined(batches)
      invariant InLoop(j, order, start, idle0, cursor, idle, batches)
      decreases Lag(j, order, cursor), IDLE_LIMIT - idle
    {
      LagNonNegative(j, order, cursor);
      var current := ReadJournal(Everything(order), Same(|order|, j), None, WINDOW);
      var unseen := Filter(Unseen(cursor), current);
      LoopPolls(j, order, start, idle0, cursor, idle, batches);
      Regroup(sent, Joined(batches), unseen);
      batches := batches + [unseen];
      if unseen != [] {
        idle := 0;
        frames, cursor := SendBatch(frames, cursor, unseen, false);
        continue;
      }
      idle := idle + 1;
    }
    LoopEnds(j, order, start, idle0, cursor, idle, batches);
  }

  /** The loop's assumption about its cursors holds at every point of every run. */
  lemma CursorsInJournal(trace: seq<State>, acts: seq<Action>, k: nat)
    requires Run(trace, acts) && k <= |acts|
    ensures Dense(trace[k].journal) && forall i :: Get(trace[k].cursor, i) <= |Log(trace[k].journal, i)|
  {
    RunKeepsInv(trace, acts, k);
  }

  /** The whole generator, over a journal nobody appends to: the snapshot, then the polls, until 300 quiet
      ones in a row. */
  method StreamEvents(j: seq<Event>, order: seq<string>)
    returns (frames: seq<Event>, cursor: map<string, nat>, ghost batches: seq<seq<Event>>)
    requires Dense(j)
    ensures var recent := JournalEvents(Everything(order), Same(|order|, j), None, SNAPSHOT);
            var start := AdvanceAll(map[], recent, true);
            && frames == recent + Joined(batches) && PolledInTurn(batches, start, Frozen(order, j))
            && Quiet(batches, 300) && NotQuietBefore(0, batches)
            && (forall e :: e in frames ==> e in recent || e in Frozen(order, j))
            && (forall e :: e in Frozen(order, j) ==> !Unseen(cursor)(e))
            && (forall e :: e in Frozen(order, j) && Unseen(start)(e) ==> e in frames)
  {
    var recent := ReadJournal(Everything(order), Same(|order|, j), None, SNAPSHOT);
    frames, cursor := SendBatch([], map[], recent, true);
    assert [] + recent == recent;
    SnapshotBounded(order, j, recent);
    frames, cursor, batches := PollUntilIdle(j, order, frames, cursor, 0);
    assert Empties(0) + batches == batches;
  }
}
