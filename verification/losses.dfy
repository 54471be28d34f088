/** Runs of the delivery protocol that lose an event: one in which a reconnect does, although nothing
    is appended while disconnected, and one in which a poll does. */
module Losses {
  import opened Sequences
  import opened Sorting
  import opened Journal
  import opened Reads
  import opened Stream
  import opened Delivery
  import opened Snapshot
  import opened Reconnect
  import opened Wrappers

  /** One instance's events, a tick apart, with ids that differ. */
  function Tick(k: nat): Event { Event(seq(k, _ => 'x'), k + 1, k, "i", None, None, OtherKind("tick")) }
  function Ticks(n: nat): seq<Event> { seq(n, k requires 0 <= k < n => Tick(k)) }

  lemma TicksAreInOrder(n: nat)
    ensures InOrder(Ticks(n)) && UniqueIds(Ticks(n)) && Log(Ticks(n), "i") == Ticks(n)
  {
    FilterAllOrNone(OfInstance("i"), Ticks(n));
    assert forall p :: 0 <= p < n ==> |Ticks(n)[p].id| == p;
  }

  lemma Extend(trace: seq<State>, acts: seq<Action>, a: Action) returns (trace': seq<State>, acts': seq<Action>)
    requires Run(trace, acts) && Enabled(trace[|acts|], a)
    ensures acts' == acts + [a] && trace <= trace' && Run(trace', acts')
    ensures trace'[|acts'|] == Do(trace[|acts|], a)
  {
    trace', acts' := trace + [Do(trace[|acts|], a)], acts + [a];
    forall k {:trigger acts'[k]} | 0 <= k < |acts'|
      ensures Enabled(trace'[k], acts'[k]) && trace'[k + 1] == Do(trace'[k], acts'[k])
    {
      if k < |acts| { assert trace'[k] == trace[k] && acts'[k] == acts[k] && trace'[k + 1] == trace[k + 1]; }
    }
  }

  lemma TickStep(s: State, n: nat)
    requires s.journal == Ticks(n)
    ensures Enabled(s, Append(Tick(n))) && Do(s, Append(Tick(n))) == s.(journal := Ticks(n + 1))
  {
    TicksAreInOrder(n);
    assert Ticks(n) + [Tick(n)] == Ticks(n + 1);
  }

  lemma {:induction false} AppendTicks(trace: seq<State>, acts: seq<Action>, n: nat)
      returns (trace': seq<State>, acts': seq<Action>)
    requires Run(trace, acts) && trace[|acts|].journal == []
    ensures Run(trace', acts') && |acts'| == |acts| + n && acts <= acts' && trace <= trace'
    ensures trace'[|acts'|] == trace[|acts|].(journal := Ticks(n))
  {
    if n == 0 {
      assert Ticks(0) == [];
      trace', acts' := trace, acts;
    } else {
      trace', acts' := AppendTicks(trace, acts, n - 1);
      TickStep(trace'[|acts'|], n - 1);
      trace', acts' := Extend(trace', acts', Append(Tick(n - 1)));
    }
  }

  /** Only `i` is registered, the journal is `n` ticks, and nothing has been received. */
  ghost predicate Bare(s: State, n: nat) {
    s.journal == Ticks(n) && s.registered == {"i"} && s.received == [] && s.start == 0
  }

  ghost predicate Gathered(s: State, snapshot: bool, n: nat) {
    && s.phase.Gathering? && s.phase.snapshot == snapshot
    && s.phase.todo == [] && s.phase.got == Ticks(n) && s.phase.begin == n
  }

  lemma StartTicks(s: State, n: nat, a: Action)
    requires Bare(s, n)
    requires (s.phase.Offline? && a == Connect(["i"])) || (s.phase.Polling? && s.idle == 0 && a == PollStart(["i"]))
    ensures Enabled(s, a) && Bare(Do(s, a), n) && Do(s, a).phase == Gathering(a.Connect?, ["i"], [], map[], n)
    ensures a.PollStart? ==> Do(s, a).known == s.known && Do(s, a).cursor == s.cursor && Do(s, a).sent == s.sent
  {
  }

  lemma TicksRead(n: nat)
    requires Dense(Ticks(n))
    ensures ReadInstance(Ticks(n), "i") == Ticks(n)
  {
    TicksAreInOrder(n);
    ReadInstanceIsLog(Ticks(n), "i");
  }

  lemma ReadTicks(s: State, n: nat, snapshot: bool)
    requires Bare(s, n) && Dense(s.journal) && s.phase == Gathering(snapshot, ["i"], [], map[], n)
    ensures Enabled(s, Read) && Bare(Do(s, Read), n) && Gathered(Do(s, Read), snapshot, n)
    ensures Do(s, Read).known == s.known && Do(s, Read).cursor == s.cursor && Do(s, Read).sent == s.sent
  {
    TicksRead(n);
    assert [] + Ticks(n) == Ticks(n) && ["i"][1..] == [];
  }

  lemma DenseAlong(trace: seq<State>, acts: seq<Action>)
    requires Run(trace, acts)
    ensures Dense(trace[|acts|].journal)
  {
    RunKeepsInv(trace, acts, |acts|);
  }

  /** A connection and its snapshot's read of `n` events. */
  lemma ConnectAndRead(trace: seq<State>, acts: seq<Action>, n: nat) returns (trace': seq<State>, acts': seq<Action>)
    requires Run(trace, acts) && Bare(trace[|acts|], n) && trace[|acts|].phase.Offline?
    ensures Run(trace', acts') && |acts'| == |acts| + 2 && trace <= trace' && acts <= acts'
    ensures acts'[|acts|].Connect? && acts'[|acts| + 1] == Read
    ensures Bare(trace'[|acts'|], n) && Gathered(trace'[|acts'|], true, n)
  {
    StartTicks(trace[|acts|], n, Connect(["i"]));
    trace', acts' := Extend(trace, acts, Connect(["i"]));
    DenseAlong(trace', acts');
    ReadTicks(trace'[|acts'|], n, true);
    trace', acts' := Extend(trace', acts', Read);
  }

  lemma EmptyWindow()
    ensures Ticks(0) == [] && Window([], true) == []
  {
  }

  lemma FinishNothing(s: State)
    requires Bare(s, 0) && Gathered(s, true, 0)
    ensures Enabled(s, Finish) && Enabled(Do(s, Finish), SendDone)
    ensures var s' := Do(Do(s, Finish), SendDone);
            Bare(s', 0) && s'.phase.Polling? && s'.idle == s.idle && s'.known == [] && s'.cursor == s.cursor
  {
    EmptyWindow();
  }

  /** A fresh connection has an empty cursor, no frames and no idle count. */
  lemma IdleFresh(trace: seq<State>, acts: seq<Action>)
    requires Run(trace, acts) && |acts| == 2 && acts[0].Connect? && acts[1] == Read
    ensures trace[2].idle == 0 && trace[2].cursor == map[] && trace[2].sent == []
  {
    RunDoes(trace, acts, 0);
    RunDoes(trace, acts, 1);
  }

  /** A first connection to an empty journal, whose snapshot sends nothing, and then `n` ticks. */
  lemma ConnectedBurst(s: State, n: nat) returns (trace: seq<State>, acts: seq<Action>)
    requires Init(s) && Bare(s, 0)
    ensures Run(trace, acts) && [s] <= trace && |acts| == 4 + n
    ensures Bare(trace[|acts|], n) && trace[|acts|].phase.Polling? && trace[|acts|].idle == 0
    ensures trace[|acts|].known == [] && trace[|acts|].cursor == map[] && trace[|acts|].sent == []
  {
    EmptyWindow();
    trace, acts := ConnectAndRead([s], [], 0);
    FinishNothing(trace[2]);
    IdleFresh(trace, acts);
    trace, acts := Extend(trace, acts, Finish);
    trace, acts := Extend(trace, acts, SendDone);
    trace, acts := AppendTicks(trace, acts, n);
  }

  lemma TicksSorted(n: nat)
    ensures Sort(KeyLe, Ticks(n)) == Ticks(n)
  {
    TicksAreInOrder(n);
    SortOfSorted(KeyLe, Ticks(n));
  }

  lemma LastFiftyTicks()
    ensures Window(Ticks(51), true) == Ticks(51)[1..]
  {
    TicksSorted(51);
  }

  lemma FirstTickCut()
    ensures Tick(0) in Ticks(51) && Tick(0) !in Window(Ticks(51), true) && Overtaken(Window(Ticks(51), true), Tick(0))
  {
    LastFiftyTicks();
    var w := Ticks(51)[1..];
    assert Ticks(51)[0] == Tick(0);
    forall k | 0 <= k < 50 ensures w[k] == Tick(k + 1) && w[k].seqNo == k + 2 { assert w[k] == Ticks(51)[k + 1]; }
    assert w[0] in w;
  }

  lemma ReceivedStep(s: State, a: Action, e: Event)
    requires Enabled(s, a) && !a.Connect? && e in Do(s, a).received
    ensures e in s.received || e in Do(s, a).sent
    ensures e in s.sent ==> e in Do(s, a).sent
  {
  }

  /** Everything received on a connection was received before or sent on it. */
  lemma {:induction false} ReceivedWasSent(trace: seq<State>, acts: seq<Action>, k: nat, n: nat, e: Event)
    requires Run(trace, acts) && k <= n && SameConnection(acts, k, n) && e in trace[n].received
    ensures e in trace[k].received || e in trace[n].sent
  {
    if n <= k {
    } else {
      RunDoes(trace, acts, n - 1);
      ReceivedStep(trace[n - 1], acts[n - 1], e);
      if e in trace[n - 1].received { ReceivedWasSent(trace, acts, k, n - 1, e); }
    }
  }

  /** After the disconnect at step `d`, with no append in between, step `d + 3` is the snapshot of a new
      connection that read 51 ticks, of which nothing has been received. */
  ghost predicate BurstCut(trace: seq<State>, acts: seq<Action>, d: nat) {
    && Run(trace, acts) && d + 3 < |acts|
    && acts[d] == Disconnect && acts[d + 1].Connect? && acts[d + 2] == Read && SnapshotRead(trace, acts, d + 3)
    && Bare(trace[d + 3], 51) && trace[d + 3].phase.got == Ticks(51)
  }

  lemma Hangup(s: State, n: nat)
    requires Bare(s, n)
    ensures Enabled(s, Disconnect) && Bare(Do(s, Disconnect), n) && Do(s, Disconnect).phase.Offline?
  {
  }

  lemma ReadAgain(trace: seq<State>, acts: seq<Action>, d: nat) returns (trace': seq<State>, acts': seq<Action>)
    requires Run(trace, acts) && |acts| == d + 1 && acts[d] == Disconnect
    requires Bare(trace[d + 1], 51) && trace[d + 1].phase.Offline?
    ensures trace <= trace' && |acts'| == d + 4 && BurstCut(trace', acts', d)
  {
    trace', acts' := ConnectAndRead(trace, acts, 51);
    ghost var read := trace'[d + 3];
    trace', acts' := Extend(trace', acts', Finish);
    assert trace'[d + 3] == read;
    assert acts'[d] == Disconnect && acts'[d + 1].Connect? && acts'[d + 2] == Read && acts'[d + 3] == Finish;
  }

  /** 51 events are appended while connected and before any poll, none while disconnected. */
  lemma UnpolledBurst(s: State) returns (trace: seq<State>, acts: seq<Action>)
    requires Init(s) && Bare(s, 0)
    ensures [s] <= trace && |acts| == 59 && BurstCut(trace, acts, 55)
  {
    trace, acts := ConnectedBurst(s, 51);
    Hangup(trace[55], 51);
    trace, acts := Extend(trace, acts, Disconnect);
    trace, acts := ReadAgain(trace, acts, 55);
  }

  lemma FirstTickNeverSent(trace: seq<State>, acts: seq<Action>, k: nat, n: nat)
    requires Run(trace, acts) && SnapshotRead(trace, acts, k) && k < n && SameConnection(acts, k, n)
    requires trace[k].phase.got == Ticks(51)
    ensures Tick(0) !in trace[n].sent
  {
    FirstTickCut();
    OvertakenIsNeverSent(trace, acts, k, n, Tick(0));
  }

  lemma NeverReceived(trace: seq<State>, acts: seq<Action>, k: nat, n: nat, e: Event)
    requires Run(trace, acts) && k <= n && SameConnection(acts, k, n)
    requires e !in trace[k].received && e !in trace[n].sent
    ensures e !in trace[n].received
  {
    if e in trace[n].received { ReceivedWasSent(trace, acts, k, n, e); }
  }

  lemma StartStep(s: State, a: Action)
    requires Enabled(s, a)
    ensures Do(s, a).start == s.start
  {
  }

  lemma {:induction false} StartFixed(trace: seq<State>, acts: seq<Action>, k: nat, n: nat)
    requires Run(trace, acts) && k <= n <= |acts|
    ensures trace[n].start == trace[k].start
  {
    if n <= k {
    } else {
      StartFixed(trace, acts, k, n - 1);
      StartStep(trace[n - 1], acts[n - 1]);
    }
  }

  /** The first tick was appended after the first connection. */
  ghost predicate FirstTickDue(s: State) { s.start == 0 && s.journal != [] && s.journal[0] == Tick(0) }

  lemma FirstTickStays(trace: seq<State>, acts: seq<Action>, k: nat, n: nat)
    requires Run(trace, acts) && k <= n <= |acts| && trace[k].journal == Ticks(51) && trace[k].start == 0
    ensures FirstTickDue(trace[n])
  {
    JournalPrefix(trace, acts, k, n);
    StartFixed(trace, acts, k, n);
    assert Ticks(51)[0] == Tick(0) == trace[n].journal[0];
  }

  /** The new connection never sends the first tick, however it goes on: so the client has not
      received it, whatever is polled, until it reconnects again. */
  lemma UnpolledBurstIsLost(trace: seq<State>, acts: seq<Action>, d: nat, n: nat)
    requires BurstCut(trace, acts, d) && d + 3 < n && SameConnection(acts, d + 3, n)
    ensures FirstTickDue(trace[n]) && Tick(0) !in trace[n].sent && Tick(0) !in trace[n].received
  {
    FirstTickNeverSent(trace, acts, d + 3, n);
    NeverReceived(trace, acts, d + 3, n, Tick(0));
    FirstTickStays(trace, acts, d + 3, n);
  }

  /** Step `k` completes a poll that is the first to read 1001 ticks. */
  ghost predicate PollOverflows(trace: seq<State>, acts: seq<Action>, k: nat) {
    && Run(trace, acts) && FirstRead(trace, acts, k, Tick(0))
    && Bare(trace[k], 1001) && trace[k].phase.got == Ticks(1001)
  }

  /** A poll's read of `n` ticks. */
  lemma PollAndRead(trace: seq<State>, acts: seq<Action>, n: nat) returns (trace': seq<State>, acts': seq<Action>)
    requires Run(trace, acts) && Bare(trace[|acts|], n) && trace[|acts|].phase.Polling? && trace[|acts|].idle == 0
    ensures Run(trace', acts') && |acts'| == |acts| + 2 && trace <= trace' && acts <= acts'
    ensures Bare(trace'[|acts'|], n) && Gathered(trace'[|acts'|], false, n)
    ensures trace'[|acts'|].known == trace[|acts|].known
  {
    StartTicks(trace[|acts|], n, PollStart(["i"]));
    trace', acts' := Extend(trace, acts, PollStart(["i"]));
    DenseAlong(trace', acts');
    ReadTicks(trace'[|acts'|], n, false);
    trace', acts' := Extend(trace', acts', Read);
  }

  /** 1001 events are appended between the snapshot and the first poll of a connection. */
  lemma LongBurst(s: State) returns (trace: seq<State>, acts: seq<Action>)
    requires Init(s) && Bare(s, 0)
    ensures [s] <= trace && |acts| == 1008 && PollOverflows(trace, acts, 1007)
  {
    trace, acts := ConnectedBurst(s, 1001);
    trace, acts := PollAndRead(trace, acts, 1001);
    ghost var read := trace[1007];
    trace, acts := Extend(trace, acts, Finish);
    assert trace[1007] == read && Ticks(1001)[0] == Tick(0);
  }

  lemma {:induction false} TicksDense(n: nat)
    ensures Dense(Ticks(n))
  {
    if n == 0 {
    } else {
      TicksDense(n - 1);
      TicksAreInOrder(n - 1);
      DenseSnoc(Ticks(n - 1), Tick(n - 1));
      assert Ticks(n - 1) + [Tick(n - 1)] == Ticks(n);
    }
  }

  lemma ManyLater(n: nat)
    requires n > 0
    ensures Tick(0) in Ticks(n) && |Later(Ticks(n), Tick(0))| == n - 1
  {
    TicksAreInOrder(n);
    assert Ticks(n)[0] == Tick(0);
    TicksDense(n);
    ExactlyLater(Ticks(n), Ticks(n), 0);
  }

  /** The poll cuts the first tick, and no later poll of the connection sends it. */
  lemma WindowOverflowIsLost(trace: seq<State>, acts: seq<Action>, k: nat, n: nat)
    requires PollOverflows(trace, acts, k) && k < n && SameConnection(acts, k, n)
    ensures Tick(0) !in trace[n].sent && Tick(0) !in Queue(trace[n]) && Tick(0) !in trace[n].received
  {
    ManyLater(1001);
    FirstReadDecides(trace, acts, k, n, Tick(0));
    NeverReceived(trace, acts, k, n, Tick(0));
  }
}
