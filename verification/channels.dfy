/** Buyer channels collected over receipts: the merge loop of `_load_buyer_channels`
    (scripts/discovery_report.py). */
module Channels {
  import opened Sequences

  /** `name_or_url` may be absent, null, or text. */
  datatype Url = Absent | NullUrl | Url(text: string)
  datatype Channel = Channel(url: Url, note: string)

  /** An element of a receipt's channel list that is not a dictionary is skipped. */
  datatype Item = NotADict | Dict(channel: Channel)

  /** One candidate's blob in one receipt; `None` stands for a blob without a channel list. */
  datatype Blob = NoList(candidate: string) | Listed(candidate: string, items: seq<Item>)

  /** What is looked up (`ch.get("name_or_url")`) and what is remembered (`ch.get(..., "")`): an
      absent URL is looked up as null but remembered as the empty string. */
  function Sought(c: Channel): Url { if c.url.Absent? then NullUrl else c.url }
  function Remembered(c: Channel): Url { if c.url.Absent? then Url("") else c.url }

  function SeenIn(bucket: seq<Channel>): set<Url> { set c | c in bucket :: Remembered(c) }

  /** The inner loop over one list, starting from what the bucket holds. */
  function MergeInto(bucket: seq<Channel>, items: seq<Item>): seq<Channel> {
    if items == [] then bucket else
      var b, i := MergeInto(bucket, items[..|items| - 1]), items[|items| - 1];
      if i.Dict? && Sought(i.channel) !in SeenIn(b) then b + [i.channel] else b
  }

  function ItemsOf(candidate: string, blobs: seq<Blob>): seq<Item> {
    if blobs == [] then [] else
      var b := blobs[|blobs| - 1];
      ItemsOf(candidate, blobs[..|blobs| - 1]) + (if b.Listed? && b.candidate == candidate then b.items else [])
  }

  predicate Mentioned(candidate: string, blobs: seq<Blob>) {
    exists k :: 0 <= k < |blobs| && blobs[k].Listed? && blobs[k].candidate == candidate
  }

  lemma {:induction false} MergeConcat(bucket: seq<Channel>, a: seq<Item>, b: seq<Item>)
    ensures MergeInto(bucket, a + b) == MergeInto(MergeInto(bucket, a), b)
  {
    if b == [] {
      assert a + b == a;
    } else {
      assert (a + b)[..|a + b| - 1] == a + b[..|b| - 1];
      MergeConcat(bucket, a, b[..|b| - 1]);
    }
  }

  ghost predicate Merged(out: map<string, seq<Channel>>, blobs: seq<Blob>) {
    && (forall c :: c in out <==> Mentioned(c, blobs))
    && (forall c :: (if c in out then out[c] else []) == MergeInto([], ItemsOf(c, blobs)))
  }

  predicate Names(b: Blob, c: string) { b.Listed? && b.candidate == c }

  lemma OneMoreBlob(blobs: seq<Blob>, b: Blob, c: string)
    ensures Mentioned(c, blobs + [b]) <==> Mentioned(c, blobs) || Names(b, c)
    ensures MergeInto([], ItemsOf(c, blobs + [b])) ==
              if Names(b, c) then MergeInto(MergeInto([], ItemsOf(c, blobs)), b.items)
              else MergeInto([], ItemsOf(c, blobs))
  {
    assert (blobs + [b])[..|blobs + [b]| - 1] == blobs && (blobs + [b])[|blobs|] == b;
    if k :| 0 <= k < |blobs| && blobs[k].Listed? && blobs[k].candidate == c { assert (blobs + [b])[k] == blobs[k]; }
    if Names(b, c) {
      MergeConcat([], ItemsOf(c, blobs), b.items);
    } else {
      assert ItemsOf(c, blobs) + [] == ItemsOf(c, blobs);
    }
  }

  function PutBlob(out: map<string, seq<Channel>>, b: Blob): map<string, seq<Channel>> {
    if b.NoList? then out
    else out[b.candidate := MergeInto(if b.candidate in out then out[b.candidate] else [], b.items)]
  }

  lemma MergedStep(out: map<string, seq<Channel>>, blobs: seq<Blob>, b: Blob)
    requires Merged(out, blobs)
    ensures Merged(PutBlob(out, b), blobs + [b])
  {
    var out' := PutBlob(out, b);
    forall c ensures c in out' <==> Mentioned(c, blobs + [b]) { OneMoreBlob(blobs, b, c); }
    forall c ensures (if c in out' then out'[c] else []) == MergeInto([], ItemsOf(c, blobs + [b])) {
      OneMoreBlob(blobs, b, c);
      assert (if c in out then out[c] else []) == MergeInto([], ItemsOf(c, blobs));
    }
  }

  /** The inner loop over one list. */
  method MergeList(bucket: seq<Channel>, items: seq<Item>) returns (b: seq<Channel>)
    ensures b == MergeInto(bucket, items)
  {
    var seen := SeenIn(bucket);
    b := bucket;
    for n := 0 to |items|
      invariant b == MergeInto(bucket, items[..n]) && seen == SeenIn(b)
    {
      assert items[..n + 1][..n] == items[..n];
      if items[n].Dict? && Sought(items[n].channel) !in seen {
        b := b + [items[n].channel];
        seen := seen + {Remembered(items[n].channel)};
      }
    }
    assert items[..|items|] == items;
  }

  /** The loop over receipts, rebuilding `seen` from the bucket each time, is one pass over each
      candidate's concatenated lists. */
  method LoadBuyerChannels(blobs: seq<Blob>) returns (out: map<string, seq<Channel>>)
    ensures forall c :: c in out <==> Mentioned(c, blobs)
    ensures forall c :: c in out ==> out[c] == MergeInto([], ItemsOf(c, blobs))
  {
    out := map[];
    for k := 0 to |blobs|
      invariant Merged(out, blobs[..k])
    {
      assert blobs[..k + 1] == blobs[..k] + [blobs[k]];
      MergedStep(out, blobs[..k], blobs[k]);
      if blobs[k].Listed? {
        var Listed(cand, items) := blobs[k];
        var merged := MergeList(if cand in out then out[cand] else [], items);
        out := out[cand := merged];
      }
    }
    assert blobs[..|blobs|] == blobs;
  }

  function Dicts(items: seq<Item>): seq<Channel> {
    if items == [] then [] else
      Dicts(items[..|items| - 1]) + (var i := items[|items| - 1]; if i.Dict? then [i.channel] else [])
  }

  function HasUrl(): Channel -> bool { (c: Channel) => c.url.Url? && c.url.text != "" }
  function UrlOf(): Channel -> Url { (c: Channel) => c.url }
  function LacksUrl(): Channel -> bool { (c: Channel) => c.url.Absent? }

  lemma {:induction false} SeenUrl(bucket: seq<Channel>, c: Channel)
    requires HasUrl()(c)
    ensures c.url in SeenIn(bucket) <==> c.url in Keys(UrlOf(), Filter(HasUrl(), bucket))
  {
    var kept := Filter(HasUrl(), bucket);
    if c.url in SeenIn(bucket) {
      var d :| d in bucket && Remembered(d) == c.url;
      FilterMember(HasUrl(), bucket, d);
      var n :| 0 <= n < |kept| && kept[n] == d;
      assert Keys(UrlOf(), kept)[n] == c.url;
    }
    if c.url in Keys(UrlOf(), kept) {
      var n :| 0 <= n < |kept| && Keys(UrlOf(), kept)[n] == c.url;
      FilterMember(HasUrl(), bucket, kept[n]);
    }
  }

  /** Incremental merge is global deduplication: of the channels bearing a URL, the first of each. */
  lemma {:induction false} MergeDedups(items: seq<Item>)
    ensures Filter(HasUrl(), MergeInto([], items)) == DedupBy(UrlOf(), Filter(HasUrl(), Dicts(items)))
  {
    if items == [] {
    } else {
      var front, i := items[..|items| - 1], items[|items| - 1];
      MergeDedups(front);
      var b := MergeInto([], front);
      if i.Dict? {
        var c := i.channel;
        FilterSnoc(HasUrl(), b, c);
        FilterSnoc(HasUrl(), Dicts(front), c);
        if HasUrl()(c) {
          SeenUrl(b, c);
          DedupSnoc(UrlOf(), Filter(HasUrl(), Dicts(front)), c);
        }
      } else {
        assert Dicts(items) == Dicts(front);
      }
    }
  }

  predicate Offered(channels: seq<Channel>, url: Url) { exists c :: c in channels && c.url == url }
  predicate HasNull(channels: seq<Channel>) { Offered(channels, NullUrl) }

  /** What stands before the first explicit null. */
  function UntilNull(channels: seq<Channel>): seq<Channel> {
    if channels == [] || channels[0].url.NullUrl? then [] else [channels[0]] + UntilNull(channels[1..])
  }

  lemma {:induction false} UntilNullSnoc(channels: seq<Channel>, c: Channel)
    ensures UntilNull(channels + [c]) ==
            if HasNull(channels) || c.url.NullUrl? then UntilNull(channels) else UntilNull(channels) + [c]
  {
    if channels == [] {
      assert [] + [c] == [c] && [c][1..] == [];
    } else {
      var first, rest := channels[0], channels[1..];
      assert channels == [first] + rest && (channels + [c])[1..] == rest + [c];
      assert first in channels;
      UntilNullSnoc(rest, c);
    }
  }

  lemma DictsSnoc(front: seq<Item>, i: Item)
    ensures Dicts(front + [i]) == if i.Dict? then Dicts(front) + [i.channel] else Dicts(front)
    ensures MergeInto([], front + [i]) ==
            if i.Dict? && Sought(i.channel) !in SeenIn(MergeInto([], front)) then MergeInto([], front) + [i.channel]
            else MergeInto([], front)
  {
    assert (front + [i])[..|front + [i]| - 1] == front;
  }

  lemma NullSeen(bucket: seq<Channel>)
    ensures NullUrl in SeenIn(bucket) <==> HasNull(bucket)
  {
  }

  lemma OfferedSnoc(channels: seq<Channel>, c: Channel, url: Url)
    ensures Offered(channels + [c], url) <==> Offered(channels, url) || c.url == url
  {
    assert forall d :: d in channels + [c] <==> d in channels || d == c;
    if c.url == url { assert c in channels + [c]; }
  }

  /** Channels without the field are kept exactly up to the first explicit null: an absent URL is looked
      up as null but remembered as the empty string, so they are never duplicates of one another, and
      all of them are duplicates of a null. */
  lemma {:induction false} AbsentUrlsKept(items: seq<Item>)
    ensures Filter(LacksUrl(), MergeInto([], items)) == Filter(LacksUrl(), UntilNull(Dicts(items)))
    ensures HasNull(MergeInto([], items)) <==> HasNull(Dicts(items))
  {
    if items == [] {
    } else {
      var front, i := items[..|items| - 1], items[|items| - 1];
      assert items == front + [i];
      AbsentUrlsKept(front);
      DictsSnoc(front, i);
      var b := MergeInto([], front);
      NullSeen(b);
      if i.Dict? {
        UntilNullSnoc(Dicts(front), i.channel);
        FilterSnoc(LacksUrl(), b, i.channel);
        FilterSnoc(LacksUrl(), UntilNull(Dicts(front)), i.channel);
        OfferedSnoc(b, i.channel, NullUrl);
        OfferedSnoc(Dicts(front), i.channel, NullUrl);
      }
    }
  }

  lemma {:induction false} NothingAfterNull(channels: seq<Channel>)
    requires !HasNull(channels)
    ensures UntilNull(channels) == channels
  {
    if channels == [] {
    } else {
      assert channels[0] in channels && channels == [channels[0]] + channels[1..];
      assert !HasNull(channels[1..]) by { assert forall c :: c in channels[1..] ==> c in channels; }
      NothingAfterNull(channels[1..]);
    }
  }

  /** Without explicit nulls, every channel lacking the field is kept. */
  lemma AbsentUrlsAllKept(items: seq<Item>)
    requires !HasNull(Dicts(items))
    ensures Filter(LacksUrl(), MergeInto([], items)) == Filter(LacksUrl(), Dicts(items))
  {
    AbsentUrlsKept(items);
    NothingAfterNull(Dicts(items));
  }

  // ---- The fate of every channel -------------------------------------------------------------

  lemma SeenSnoc(bucket: seq<Channel>, c: Channel)
    ensures SeenIn(bucket + [c]) == SeenIn(bucket) + {Remembered(c)}
  {
    assert forall d :: d in bucket + [c] <==> d in bucket || d == c;
    assert c in bucket + [c];
    forall d | d in bucket ensures Remembered(d) in SeenIn(bucket + [c]) { assert d in bucket + [c]; }
  }

  /** A text is remembered if a channel offered it, the empty one also if an absent URL was kept. */
  lemma {:induction false} SeenIff(items: seq<Item>, text: string)
    ensures Url(text) in SeenIn(MergeInto([], items)) <==>
            Offered(Dicts(items), Url(text)) || (text == "" && Offered(UntilNull(Dicts(items)), Absent))
  {
    if items == [] {
    } else {
      var front, i := items[..|items| - 1], items[|items| - 1];
      assert items == front + [i];
      SeenIff(front, text);
      DictsSnoc(front, i);
      if i.Dict? {
        var b, cs, c := MergeInto([], front), Dicts(front), i.channel;
        AbsentUrlsKept(front);
        NullSeen(b);
        SeenSnoc(b, c);
        UntilNullSnoc(cs, c);
        OfferedSnoc(cs, c, Url(text));
        OfferedSnoc(UntilNull(cs), c, Absent);
      }
    }
  }

  /** Whether a channel is kept, given those offered before it. */
  predicate Keeps(before: seq<Channel>, c: Channel) {
    match c.url
    case Absent => !HasNull(before)
    case NullUrl => !HasNull(before)
    case Url(text) => !Offered(before, c.url) && (text == "" ==> !Offered(UntilNull(before), Absent))
  }

  /** The fate of every channel: a text is kept once; a null or an absent URL until the first null; an
      explicit empty text once, and only if no absent URL was kept before it. */
  lemma KeptIff(items: seq<Item>, c: Channel)
    ensures MergeInto([], items + [Dict(c)]) ==
            if Keeps(Dicts(items), c) then MergeInto([], items) + [c] else MergeInto([], items)
  {
    DictsSnoc(items, Dict(c));
    AbsentUrlsKept(items);
    NullSeen(MergeInto([], items));
    if c.url.Url? { SeenIff(items, c.url.text); }
  }

  lemma OneMerged(c: Channel)
    ensures MergeInto([], [Dict(c)]) == [c] && Dicts([Dict(c)]) == [c]
  {
    assert [Dict(c)][..0] == [];
  }

  lemma PairMerged(c: Channel, d: Channel)
    ensures MergeInto([], [Dict(c), Dict(d)]) == if Keeps([c], d) then [c, d] else [c]
  {
    OneMerged(c);
    KeptIff([Dict(c)], d);
    assert [Dict(c)] + [Dict(d)] == [Dict(c), Dict(d)];
  }

  /** Different channels lost: one lacking the field after an explicit null, and one with an explicit
      empty URL after one lacking the field. */
  lemma UrllessChannelsLost()
    ensures MergeInto([], [Dict(Channel(NullUrl, "a")), Dict(Channel(Absent, "b"))]) == [Channel(NullUrl, "a")]
    ensures MergeInto([], [Dict(Channel(Absent, "b")), Dict(Channel(Url(""), "c"))]) == [Channel(Absent, "b")]
  {
    PairMerged(Channel(NullUrl, "a"), Channel(Absent, "b"));
    PairMerged(Channel(Absent, "b"), Channel(Url(""), "c"));
    assert Channel(NullUrl, "a") in [Channel(NullUrl, "a")];
    assert UntilNull([Channel(Absent, "b")])[0] == Channel(Absent, "b");
  }
}
