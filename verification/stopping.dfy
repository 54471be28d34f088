/** When a connection stops polling: what the idle count of `stream_events` means over whole runs. */
module Stopping {
  import opened Journal
  import opened Stream
  import opened Delivery

  /** What each completed poll of the connection has queued, oldest first. */
  ghost function Polls(trace: seq<State>, acts: seq<Action>, n: nat): seq<seq<Event>>
    requires n <= |acts| < |trace|
  {
    if n == 0 || acts[n - 1].Connect? then []
    else if acts[n - 1] == Finish && trace[n - 1].phase.Gathering? && !trace[n - 1].phase.snapshot then
      Polls(trace, acts, n - 1) + [Queue(trace[n])]
    else Polls(trace, acts, n - 1)
  }

  /** The last `m` polls all queued nothing. */
  ghost predicate Quiet<T>(polls: seq<seq<T>>, m: nat) {
    |polls| >= m && forall k :: |polls| - m <= k < |polls| ==> polls[k] == []
  }

  /** How many polls at the end queued nothing. */
  function Trailing<T>(polls: seq<seq<T>>): nat {
    if polls != [] && |polls[|polls| - 1]| == 0 then Trailing(polls[..|polls| - 1]) + 1 else 0
  }

  lemma {:induction false} QuietIff<T>(polls: seq<seq<T>>, m: nat)
    ensures Quiet(polls, m) <==> Trailing(polls) >= m
  {
    if m == 0 || polls == [] {
    } else {
      var front, last := polls[..|polls| - 1], polls[|polls| - 1];
      QuietIff(front, m - 1);
      if last == [] {
        assert polls == front + [last];
        assert Quiet(polls, m) <==> Quiet(front, m - 1) by {
          assert forall k :: 0 <= k < |front| ==> front[k] == polls[k];
        }
      } else {
        assert polls[|polls| - 1] != [];
      }
    }
  }

  lemma TrailingSnoc<T>(polls: seq<seq<T>>, last: seq<T>)
    ensures Trailing(polls + [last]) == if last == [] then Trailing(polls) + 1 else 0
  {
    assert (polls + [last])[..|polls + [last]| - 1] == polls;
  }

  lemma IdleStep(s: State, a: Action)
    requires Enabled(s, a)
    ensures var s' := Do(s, a);
            if a.Connect? then s'.idle == 0
            else if a == Finish && !s.phase.snapshot then s'.idle == if Queue(s') == [] then s.idle + 1 else 0
            else s'.idle == s.idle
  {
  }

  lemma {:induction false} IdleCounts(trace: seq<State>, acts: seq<Action>, n: nat)
    requires Run(trace, acts) && n <= |acts| && !trace[n].phase.Offline?
    ensures trace[n].idle == Trailing(Polls(trace, acts, n))
  {
    if n == 0 {
    } else {
      RunDoes(trace, acts, n - 1);
      IdleStep(trace[n - 1], acts[n - 1]);
      if !acts[n - 1].Connect? {
        IdleCounts(trace, acts, n - 1);
        TrailingSnoc(Polls(trace, acts, n - 1), Queue(trace[n]));
      }
    }
  }

  lemma {:induction false} SomeOrder(s: set<string>) returns (order: seq<string>)
    ensures Enumerates(order, s)
  {
    if s == {} {
      order := [];
    } else {
      var i :| i in s;
      var rest := SomeOrder(s - {i});
      order := [i] + rest;
    }
  }

  /** Between polls a connection stops if and only if its last 300 polls all queued nothing; until then it
      polls again, however many polls were quiet before one that was not. */
  lemma StopsIffQuiet(trace: seq<State>, acts: seq<Action>, n: nat)
    requires Run(trace, acts) && n <= |acts| && trace[n].phase.Polling?
    ensures Enabled(trace[n], Stop) <==> Quiet(Polls(trace, acts, n), 300)
    ensures (exists order :: Enabled(trace[n], PollStart(order))) <==> !Quiet(Polls(trace, acts, n), 300)
  {
    IdleCounts(trace, acts, n);
    QuietIff(Polls(trace, acts, n), 300);
    var order := SomeOrder(trace[n].registered);
    assert Enabled(trace[n], PollStart(order)) <==> !Quiet(Polls(trace, acts, n), 300);
  }

  /** So a connection that stopped has seen 300 quiet polls since the last one that queued something. */
  lemma StoppedAfterQuiet(trace: seq<State>, acts: seq<Action>, n: nat)
    requires Run(trace, acts) && n < |acts| && acts[n] == Stop
    ensures Quiet(Polls(trace, acts, n), 300)
  {
    RunDoes(trace, acts, n);
    StopsIffQuiet(trace, acts, n);
  }
}
