/** The browser side of the stream: `useJournalStream` of dashboard/src/lib/events.ts. */
module Client {
  import opened Sequences
  import opened Journal
  import opened Wrappers

  const VISIBLE := 50

  /** A frame that `parseJournalFrame` accepts, or one it throws on. */
  datatype Frame = Parsed(event: Event) | Malformed

  function EventId(e: Event): string { e.id }

  /** The client's accepted sequence: the first frame of each event id. */
  function Accepted(received: seq<Event>): seq<Event> { DedupBy(EventId, received) }

  function WellFormed(frames: seq<Frame>): seq<Event> {
    if frames == [] then [] else
      WellFormed(frames[..|frames| - 1]) +
      (var f := frames[|frames| - 1]; if f.Parsed? then [f.event] else [])
  }

  lemma FrameAdds(frames: seq<Frame>, frame: Frame)
    ensures WellFormed(frames + [frame]) ==
            if frame.Parsed? then WellFormed(frames) + [frame.event] else WellFormed(frames)
  {
    assert (frames + [frame])[..|frames + [frame]| - 1] == frames;
  }

  /** One more event: accepted and shown last if its id is new, else nothing changes. */
  lemma VisibleGrows(s: seq<Event>, e: Event)
    ensures LastN(s + [e], VISIBLE) == LastN(LastN(s, VISIBLE), VISIBLE - 1) + [e]
  {
  }

  lemma AcceptedGrows(received: seq<Event>, e: Event)
    ensures var before, after := Accepted(received), Accepted(received + [e]);
            if e.id in Keys(EventId, before) then after == before
            else
              && after == before + [e] && Keys(EventId, after) == Keys(EventId, before) + [e.id]
              && LastN(after, VISIBLE) == LastN(LastN(before, VISIBLE), VISIBLE - 1) + [e]
  {
    DedupSnoc(EventId, received, e);
    KeysSnoc(EventId, Accepted(received), e);
    VisibleGrows(Accepted(received), e);
  }

  class JournalStream {
    var seenEventIds: set<string>
    var events: seq<Event>
    ghost var frames: seq<Frame>

    /** After any frames, the visible buffer is the last 50 accepted events. */
    ghost predicate Ok() reads this {
      && events == LastN(Accepted(WellFormed(frames)), 50)
      && forall id :: id in seenEventIds <==> id in Keys(EventId, Accepted(WellFormed(frames)))
    }

    constructor ()
      ensures Ok() && frames == []
    {
      seenEventIds, events, frames := {}, [], [];
    }

    /** A changed base URL reruns the effect: nothing seen, nothing shown. */
    method Restart()
      modifies this
      ensures Ok() && frames == []
    {
      seenEventIds, events, frames := {}, [], [];
    }

    method HandleJournal(frame: Frame)
      requires Ok()
      modifies this
      ensures Ok() && frames == old(frames) + [frame]
    {
      ghost var received := WellFormed(frames);
      FrameAdds(frames, frame);
      frames := frames + [frame];
      if frame.Malformed? { return; }
      AcceptedGrows(received, frame.event);
      if frame.event.id in seenEventIds { return; }
      seenEventIds := seenEventIds + {frame.event.id};
      events := LastN(events, VISIBLE - 1) + [frame.event];
    }
  }

  /** What is accepted keeps the order it was received in. */
  lemma AcceptedInOrder(received: seq<Event>, a: Event, b: Event)
    requires Precedes(Accepted(received), a, b)
    ensures Precedes(received, a, b)
  {
    DedupPrecedes(EventId, received, a, b);
  }

  lemma AcceptedIds(received: seq<Event>, e: Event)
    requires e in received
    ensures exists d :: d in Accepted(received) && d in received && d.id == e.id
  {
    DedupMeaning(EventId, received);
    KeysMember(EventId, received, e.id);
    KeysMember(EventId, Accepted(received), e.id);
  }

  lemma OneOfEachId(received: seq<Event>, a: Event, b: Event)
    requires a in Accepted(received) && b in Accepted(received) && a.id == b.id
    ensures a == b
  {
    var d := Accepted(received);
    DedupMeaning(EventId, received);
    var x :| 0 <= x < |d| && d[x] == a;
    var y :| 0 <= y < |d| && d[y] == b;
    assert Keys(EventId, d)[x] == Keys(EventId, d)[y];
  }

  /** Every received event is accepted if and only if no two different ones share an id. */
  lemma AllAcceptedIffIdsDistinct(received: seq<Event>)
    ensures (forall e :: e in received ==> e in Accepted(received)) <==>
            (forall a, b :: a in received && b in received && a.id == b.id ==> a == b)
  {
    if forall e :: e in received ==> e in Accepted(received) {
      forall a, b | a in received && b in received && a.id == b.id ensures a == b { OneOfEachId(received, a, b); }
    }
    if forall a, b :: a in received && b in received && a.id == b.id ==> a == b {
      forall e | e in received ensures e in Accepted(received) { AcceptedIds(received, e); }
    }
  }

  lemma {:induction false} CountOne<T(!new)>(s: seq<T>, x: T)
    requires Distinct(s)
    ensures multiset(s)[x] == if x in s then 1 else 0
  {
    if s == [] {
    } else {
      assert Distinct(s[1..]);
      CountOne(s[1..], x);
      assert s == [s[0]] + s[1..];
      assert multiset(s) == multiset{s[0]} + multiset(s[1..]);
      if x in s[1..] {
        var k :| 0 <= k < |s[1..]| && s[1..][k] == x;
        assert s[k + 1] == x;
      }
    }
  }

  /** With distinct ids, re-sent frames included, each received event is accepted exactly once. */
  lemma AcceptedOnce(received: seq<Event>, e: Event)
    requires forall a, b :: a in received && b in received && a.id == b.id ==> a == b
    requires e in received
    ensures multiset(Accepted(received))[e] == 1
  {
    var d := Accepted(received);
    AllAcceptedIffIdsDistinct(received);
    DedupMeaning(EventId, received);
    assert Distinct(d) by {
      forall i, j | 0 <= i < j < |d| ensures d[i] != d[j] {
        assert Keys(EventId, d)[i] != Keys(EventId, d)[j];
      }
    }
    CountOne(d, e);
  }

  /** What the kernel journals when a manager sets a ring: its id is made of instance and ring alone
      (packages/kernel/src/agentx_kernel/control.py:358-374). */
  function RingChange(inst: string, ring: string, at: int): Event {
    Event(inst + ":manager:set_ring:" + ring, 0, at, inst, None, None, ManagerAction("set_ring", Some(ring)))
  }

  /** Setting the same ring twice journals two events, of which the client shows one. */
  lemma SameRingTwice(j: seq<Event>, inst: string, ring: string, t: int, u: int)
    ensures var a := Stamp(j, RingChange(inst, ring, t));
            var b := Stamp(j + [a], RingChange(inst, ring, u));
            && AppendTo(j, RingChange(inst, ring, t)) == Some(j + [a])
            && AppendTo(j + [a], RingChange(inst, ring, u)) == Some(j + [a] + [b])
            && a != b && Accepted([a, b]) == [a]
  {
    var a := Stamp(j, RingChange(inst, ring, t));
    var b := Stamp(j + [a], RingChange(inst, ring, u));
    FilterSnoc(OfInstance(inst), j, a);
    DedupSnoc(EventId, [], a);
    DedupSnoc(EventId, [a], b);
    assert [] + [a] == [a] && [a] + [b] == [a, b];
    assert Keys(EventId, [a])[0] == b.id;
  }
}
