/** The edit diff of the server (`_arg_diff_keys`, api/src/agentx_api/app.py) and its preview in
    the browser (`argDiffKeys`, dashboard/src/lib/api.ts). */
module ArgDiff {
  import opened Sequences
  import opened Sorting
  import opened Wrappers

  /** A JSON value as one of the two languages sees it. `Number` is a number other than JavaScript's
      negative zero. A container has an identity besides its content, which is taken up to Python's
      `==`; `Inherited` is what reading an `Object.prototype` member of a plain object yields. */
  datatype JsonValue =
    | Null | Boolean(truth: bool) | Number(value: real) | NegativeZero | Text(text: string)
    | Container(ref: nat, content: string) | Inherited(member: string)

  type Args = map<string, JsonValue>

  /** The number Python sees: `True` and `False` are 1 and 0 there, and `-0` is 0. */
  function NumberOf(v: JsonValue): Option<real> {
    match v
    case Boolean(b) => Some(if b then 1.0 else 0.0)
    case Number(x) => Some(x)
    case NegativeZero => Some(0.0)
    case _ => None
  }

  /** What Python takes for 0 and for 1. */
  const ZEROS := {Number(0.0), NegativeZero, Boolean(false)}
  const ONES := {Number(1.0), Boolean(true)}

  /** Python's `==`: structural, and by value between booleans and numbers. */
  predicate Equal(a: JsonValue, b: JsonValue) {
    if a.Container? && b.Container? then a.content == b.content
    else if NumberOf(a).Some? && NumberOf(b).Some? then NumberOf(a) == NumberOf(b)
    else a == b
  }

  /** JavaScript's `Object.is`: containers by identity, everything else exactly. */
  predicate Is(a: JsonValue, b: JsonValue) {
    if a.Container? && b.Container? then a.ref == b.ref else a == b
  }

  datatype Op = Added | Removed | Changed

  /** `before` of an addition and `after` of a removal are null, as in the source. */
  datatype Entry = Entry(key: string, op: Op, before: JsonValue, after: JsonValue)

  // ---- Sorted keys ---------------------------------------------------------------------------

  ghost predicate StrictlySorted(ks: seq<string>) {
    forall i, j :: 0 <= i < j < |ks| ==> StringLt(ks[i], ks[j])
  }

  ghost predicate KeysOf(ks: seq<string>, s: set<string>) {
    StrictlySorted(ks) && forall k :: k in ks <==> k in s
  }

  lemma TailKeys(a: seq<string>, s: set<string>)
    requires KeysOf(a, s) && a != []
    ensures KeysOf(a[1..], s - {a[0]})
  {
    assert a == [a[0]] + a[1..];
    forall k ensures k in a[1..] <==> k in s - {a[0]} {
      if k in a[1..] {
        var i :| 0 <= i < |a[1..]| && a[1..][i] == k;
        assert a[i + 1] == k;
      }
    }
  }

  lemma {:induction false} SortedKeysUnique(a: seq<string>, b: seq<string>, s: set<string>)
    requires KeysOf(a, s) && KeysOf(b, s)
    ensures a == b
  {
    StringLeIsTotalPreorder();
    assert a != [] ==> a[0] in a && a[0] in b;
    assert b != [] ==> b[0] in b && b[0] in a;
    if a == [] || b == [] {
    } else {
      assert a[0] == b[0];
      TailKeys(a, s);
      TailKeys(b, s);
      SortedKeysUnique(a[1..], b[1..], s - {a[0]});
      assert a == [a[0]] + a[1..] && b == [b[0]] + b[1..];
    }
  }

  lemma StrictDistinct(ks: seq<string>)
    requires StrictlySorted(ks)
    ensures Distinct(ks)
  {
  }

  lemma {:induction false} SortedDistinctStrict(r: seq<string>, ks: seq<string>, k: string)
    requires r == Insert(StringLe, k, ks) && StrictlySorted(ks) && k !in ks && Sorted(StringLe, r)
    ensures StrictlySorted(r)
  {
    if ks == [] || StringLe(k, ks[0]) {
    } else {
      assert StrictlySorted(ks[1..]);
      assert r[1..] == Insert(StringLe, k, ks[1..]);
      assert Sorted(StringLe, r[1..]);
      SortedDistinctStrict(r[1..], ks[1..], k);
      StringLeIsTotalPreorder();
      InsertSorts(StringLe, k, ks[1..]);
      forall j | 0 < j < |r| ensures StringLt(r[0], r[j]) {
        assert r[j] == r[1..][j - 1] && r[j] in multiset(r[1..]);
        assert r[j] == k || r[j] in ks[1..];
      }
      assert forall j :: 0 < j < |r| ==> r[j] == r[1..][j - 1];
    }
  }

  lemma InsertKey(ks: seq<string>, s: set<string>, k: string)
    requires KeysOf(ks, s) && k !in s
    ensures KeysOf(Insert(StringLe, k, ks), s + {k})
  {
    StringLeIsTotalPreorder();
    InsertSorts(StringLe, k, ks);
    var r := Insert(StringLe, k, ks);
    forall x ensures x in r <==> x in s + {k} {
      assert x in r <==> x in multiset(r);
      assert x in ks <==> x in multiset(ks);
    }
    StrictDistinct(ks);
    SortedDistinctStrict(r, ks, k);
  }

  /** The one strictly increasing list of a set's members. */
  ghost function SortedKeys(s: set<string>): (ks: seq<string>)
    ensures KeysOf(ks, s)
  {
    if s == {} then [] else
      var k :| k in s;
      InsertKey(SortedKeys(s - {k}), s - {k}, k);
      assert s - {k} + {k} == s;
      Insert(StringLe, k, SortedKeys(s - {k}))
  }

  /** `sorted(set)`, visiting the set in any order. */
  method SortKeys(s: set<string>) returns (ks: seq<string>)
    ensures ks == SortedKeys(s)
  {
    ks := [];
    var todo := s;
    while todo != {}
      invariant todo <= s && KeysOf(ks, s - todo)
      decreases todo
    {
      var k :| k in todo;
      InsertKey(ks, s - todo, k);
      ks := Insert(StringLe, k, ks);
      todo := todo - {k};
      assert s - todo == s - (todo + {k}) + {k};
    }
    assert s - todo == s;
    SortedKeysUnique(ks, SortedKeys(s), s);
  }

  // ---- Server --------------------------------------------------------------------------------

  function ServerEntry(k: string, before: Args, after: Args): seq<Entry> {
    if k !in before then (if k in after then [Entry(k, Added, Null, after[k])] else [])
    else if k !in after then [Entry(k, Removed, before[k], Null)]
    else if !Equal(before[k], after[k]) then [Entry(k, Changed, before[k], after[k])]
    else []
  }

  function ServerDiff(ks: seq<string>, before: Args, after: Args): seq<Entry> {
    if ks == [] then [] else ServerDiff(ks[..|ks| - 1], before, after) + ServerEntry(ks[|ks| - 1], before, after)
  }

  /** What the server records. */
  ghost function Recorded(before: Args, after: Args): seq<Entry> {
    ServerDiff(SortedKeys(before.Keys + after.Keys), before, after)
  }

  method ArgDiffKeys(before: Args, after: Args) returns (diff: seq<Entry>)
    ensures diff == Recorded(before, after)
  {
    var keys := SortKeys(before.Keys + after.Keys);
    diff := [];
    for n := 0 to |keys|
      invariant diff == ServerDiff(keys[..n], before, after)
    {
      var k := keys[n];
      assert keys[..n + 1][..n] == keys[..n] && k in keys;
      if k !in before {
        diff := diff + [Entry(k, Added, Null, after[k])];
      } else if k !in after {
        diff := diff + [Entry(k, Removed, before[k], Null)];
      } else if !Equal(before[k], after[k]) {
        diff := diff + [Entry(k, Changed, before[k], after[k])];
      }
    }
    assert keys[..|keys|] == keys;
  }

  predicate Differs(k: string, before: Args, after: Args) {
    if k in before && k in after then !Equal(before[k], after[k]) else k in before || k in after
  }

  function DiffKeys(diff: seq<Entry>): seq<string> {
    seq(|diff|, i requires 0 <= i < |diff| => diff[i].key)
  }

  lemma DiffKeysSnoc(front: seq<string>, last: string, before: Args, after: Args)
    ensures DiffKeys(ServerDiff(front + [last], before, after)) ==
            DiffKeys(ServerDiff(front, before, after)) + if Differs(last, before, after) then [last] else []
  {
    var ks, d, e := front + [last], ServerDiff(front, before, after), ServerEntry(last, before, after);
    assert ks[..|ks| - 1] == front;
    assert DiffKeys(d + e) == DiffKeys(d) + DiffKeys(e);
    assert DiffKeys(e) == if Differs(last, before, after) then [last] else [];
  }

  lemma StrictlySortedSnoc(front: seq<string>, last: string, some: seq<string>)
    requires StrictlySorted(front + [last]) && StrictlySorted(some) && forall k :: k in some ==> k in front
    ensures StrictlySorted(some + [last])
  {
    forall i | 0 <= i < |some| ensures StringLt(some[i], last) {
      assert some[i] in some;
      var n :| 0 <= n < |front| && front[n] == some[i];
      assert (front + [last])[n] == front[n] && (front + [last])[|front|] == last;
    }
  }

  lemma {:induction false} EntriesListed(ks: seq<string>, before: Args, after: Args, e: Entry)
    ensures e in ServerDiff(ks, before, after) <==> exists k :: k in ks && e in ServerEntry(k, before, after)
  {
    if ks == [] {
    } else {
      var front, last := ks[..|ks| - 1], ks[|ks| - 1];
      assert ks == front + [last];
      EntriesListed(front, before, after, e);
      assert last in ks;
    }
  }

  /** An entry says what became of its key: added or removed, with null on the other side, or changed. */
  predicate Tells(e: Entry, before: Args, after: Args) {
    || (e.key in after && e.key !in before && e == Entry(e.key, Added, Null, after[e.key]))
    || (e.key in before && e.key !in after && e == Entry(e.key, Removed, before[e.key], Null))
    || (e.key in before && e.key in after && !Equal(before[e.key], after[e.key])
        && e == Entry(e.key, Changed, before[e.key], after[e.key]))
  }

  lemma EntryTells(k: string, before: Args, after: Args, e: Entry)
    requires k in before || k in after
    ensures e in ServerEntry(k, before, after) <==> e.key == k && Tells(e, before, after)
  {
  }

  /** The record lists exactly the entries that tell so. */
  lemma RecordedIff(before: Args, after: Args, e: Entry)
    ensures e in Recorded(before, after) <==> Tells(e, before, after)
  {
    var ks := SortedKeys(before.Keys + after.Keys);
    EntriesListed(ks, before, after, e);
    forall k | k in ks ensures e in ServerEntry(k, before, after) <==> e.key == k && Tells(e, before, after) {
      EntryTells(k, before, after, e);
    }
    if Tells(e, before, after) { assert e.key in ks; }
  }

  lemma {:induction false} KeysDiffering(ks: seq<string>, before: Args, after: Args)
    requires StrictlySorted(ks)
    ensures var dk := DiffKeys(ServerDiff(ks, before, after));
            StrictlySorted(dk) && forall k :: k in dk <==> k in ks && Differs(k, before, after)
  {
    if ks == [] {
    } else {
      var front, last := ks[..|ks| - 1], ks[|ks| - 1];
      assert ks == front + [last];
      KeysDiffering(front, before, after);
      DiffKeysSnoc(front, last, before, after);
      StrictlySortedSnoc(front, last, DiffKeys(ServerDiff(front, before, after)));
    }
  }

  /** The diff lists exactly the differing keys, in strictly increasing order. */
  lemma DiffKeysAreDifferences(before: Args, after: Args)
    ensures var dk := DiffKeys(Recorded(before, after));
            StrictlySorted(dk) && forall k :: k in dk <==> Differs(k, before, after)
  {
    KeysDiffering(SortedKeys(before.Keys + after.Keys), before, after);
  }

  ghost predicate SameArgs(a: Args, b: Args) {
    a.Keys == b.Keys && forall k :: k in a ==> Equal(a[k], b[k])
  }

  function Apply(args: Args, diff: seq<Entry>): Args {
    if diff == [] then args else
      var done, e := Apply(args, diff[..|diff| - 1]), diff[|diff| - 1];
      if e.op == Removed then done - {e.key} else done[e.key := e.after]
  }

  function Undo(args: Args, diff: seq<Entry>): Args {
    if diff == [] then args else
      var done, e := Undo(args, diff[..|diff| - 1]), diff[|diff| - 1];
      if e.op == Added then done - {e.key} else done[e.key := e.before]
  }

  /** After any number of sorted keys, exactly those keys have been brought over. */
  ghost predicate BroughtOver(got: Args, from: Args, to: Args, ks: seq<string>) {
    forall k ::
      if k in ks then (k in got <==> k in to) && (k in got ==> Equal(got[k], to[k]))
      else (k in got <==> k in from) && (k in got ==> got[k] == from[k])
  }

  lemma ApplyOne(args: Args, d: seq<Entry>, e: seq<Entry>)
    requires |e| <= 1
    ensures Apply(args, d + e) == Apply(Apply(args, d), e) && Undo(args, d + e) == Undo(Undo(args, d), e)
  {
    if e == [] {
      assert d + e == d;
    } else {
      assert (d + e)[..|d + e| - 1] == d && e[..0] == [];
    }
  }

  lemma BringOver(done: Args, before: Args, after: Args, ks: seq<string>, k: string)
    requires BroughtOver(done, before, after, ks) && k !in ks
    ensures BroughtOver(Apply(done, ServerEntry(k, before, after)), before, after, ks + [k])
  {
    var e := ServerEntry(k, before, after);
    if e != [] { assert e[..0] == []; }
    assert forall x :: x in ks + [k] <==> x in ks || x == k;
  }

  lemma TakeBack(undone: Args, before: Args, after: Args, ks: seq<string>, k: string)
    requires BroughtOver(undone, after, before, ks) && k !in ks
    ensures BroughtOver(Undo(undone, ServerEntry(k, before, after)), after, before, ks + [k])
  {
    var e := ServerEntry(k, before, after);
    if e != [] { assert e[..0] == []; }
    assert forall x :: x in ks + [k] <==> x in ks || x == k;
  }

  lemma {:induction false} ApplyBrings(ks: seq<string>, before: Args, after: Args)
    requires Distinct(ks)
    ensures BroughtOver(Apply(before, ServerDiff(ks, before, after)), before, after, ks)
    ensures BroughtOver(Undo(after, ServerDiff(ks, before, after)), after, before, ks)
  {
    if ks == [] {
    } else {
      var front, last := ks[..|ks| - 1], ks[|ks| - 1];
      assert ks == front + [last] && last !in front;
      ApplyBrings(front, before, after);
      var d, e := ServerDiff(front, before, after), ServerEntry(last, before, after);
      ApplyOne(before, d, e);
      ApplyOne(after, d, e);
      BringOver(Apply(before, d), before, after, front, last);
      TakeBack(Undo(after, d), before, after, front, last);
    }
  }

  lemma EmptyDiff(diff: seq<Entry>, before: Args, after: Args)
    requires forall k :: k in DiffKeys(diff) <==> Differs(k, before, after)
    ensures diff == [] <==> SameArgs(before, after)
  {
    if diff != [] {
      assert DiffKeys(diff)[0] in DiffKeys(diff);
    } else {
      forall k ensures !Differs(k, before, after) { assert k !in DiffKeys(diff); }
      forall k | k in before ensures k in after && Equal(before[k], after[k]) { assert !Differs(k, before, after); }
      forall k | k in after ensures k in before { assert !Differs(k, before, after); }
    }
  }

  /** Round trip: the diff turns `before` into `after` and back, and is empty exactly when they
      are equal. */
  lemma DiffRoundTrip(before: Args, after: Args)
    ensures var diff := Recorded(before, after);
            && SameArgs(Apply(before, diff), after) && SameArgs(Undo(after, diff), before)
            && (diff == [] <==> SameArgs(before, after))
  {
    var ks := SortedKeys(before.Keys + after.Keys);
    StrictDistinct(ks);
    ApplyBrings(ks, before, after);
    DiffKeysAreDifferences(before, after);
    EmptyDiff(Recorded(before, after), before, after);
  }

  // ---- Browser -------------------------------------------------------------------------------

  const PROTOTYPE := {"constructor", "hasOwnProperty", "isPrototypeOf", "propertyIsEnumerable",
                      "toLocaleString", "toString", "valueOf", "__proto__", "__defineGetter__",
                      "__defineSetter__", "__lookupGetter__", "__lookupSetter__"}

  /** JavaScript's `key in object` also finds inherited members. */
  predicate InObject(k: string, args: Args) { k in args || k in PROTOTYPE }
  function ReadMember(k: string, args: Args): JsonValue { if k in args then args[k] else Inherited(k) }

  function PreviewEntry(k: string, before: Args, after: Args): seq<Entry> {
    if !InObject(k, before) then [Entry(k, Added, Null, ReadMember(k, after))]
    else if !InObject(k, after) then [Entry(k, Removed, ReadMember(k, before), Null)]
    else if !Is(ReadMember(k, before), ReadMember(k, after)) then
      [Entry(k, Changed, ReadMember(k, before), ReadMember(k, after))]
    else []
  }

  function PreviewDiff(ks: seq<string>, before: Args, after: Args): seq<Entry> {
    if ks == [] then [] else PreviewDiff(ks[..|ks| - 1], before, after) + PreviewEntry(ks[|ks| - 1], before, after)
  }

  /** What the browser shows before the request. */
  ghost function Preview(before: Args, after: Args): seq<Entry> {
    PreviewDiff(SortedKeys(before.Keys + after.Keys), before, after)
  }

  method PreviewDiffKeys(before: Args, after: Args) returns (out: seq<Entry>)
    ensures out == Preview(before, after)
  {
    var keys := SortKeys(before.Keys + after.Keys);
    out := [];
    for n := 0 to |keys|
      invariant out == PreviewDiff(keys[..n], before, after)
    {
      assert keys[..n + 1][..n] == keys[..n];
      out := out + PreviewEntry(keys[n], before, after);
    }
    assert keys[..|keys|] == keys;
  }

  /** Values of parsed JSON: nothing inherited, and one identity has one content. */
  ghost predicate Parsed(before: Args, after: Args) {
    && (forall k :: k in before ==> !before[k].Inherited?) && (forall k :: k in after ==> !after[k].Inherited?)
    && forall k :: k in before && k in after && Is(before[k], after[k]) ==> Equal(before[k], after[k])
  }

  /** A key only one side has, named like an `Object.prototype` member. */
  ghost predicate Shadowing(before: Args, after: Args) {
    exists k :: k in PROTOTYPE && (k in before <==> k !in after)
  }

  /** Two values that only JavaScript tells apart: containers of one content, a boolean and its number,
      or 0 and -0. */
  predicate Lookalike(a: JsonValue, b: JsonValue) {
    if a.Container? && b.Container? then a.content == b.content && a.ref != b.ref
    else a != b && NumberOf(a).Some? && NumberOf(a) == NumberOf(b)
  }

  /** Which values only JavaScript tells apart. */
  lemma LookalikeIff(a: JsonValue, b: JsonValue)
    ensures Lookalike(a, b) <==>
            || (a.Container? && b.Container? && a.content == b.content && a.ref != b.ref)
            || (a != b && a in ZEROS && b in ZEROS)
            || (a != b && a in ONES && b in ONES)
    ensures Equal(a, b) <==> a == b || (a.Container? && b.Container? && a.content == b.content)
                             || (a in ZEROS && b in ZEROS) || (a in ONES && b in ONES)
  {
  }

  ghost predicate Lookalikes(before: Args, after: Args) {
    exists k :: k in before && k in after && Lookalike(before[k], after[k])
  }

  /** Not a change of one lookalike for another. */
  function SeenByBoth(): Entry -> bool { (e: Entry) => !(e.op == Changed && Lookalike(e.before, e.after)) }

  lemma EntryRefines(k: string, before: Args, after: Args)
    requires Parsed(before, after) && (k in before || k in after)
    requires k in PROTOTYPE ==> (k in before <==> k in after)
    ensures ServerEntry(k, before, after) == Filter(SeenByBoth(), PreviewEntry(k, before, after))
  {
    FilterAtMostOne(SeenByBoth(), PreviewEntry(k, before, after));
  }

  lemma {:induction false} EntriesRefine(ks: seq<string>, before: Args, after: Args)
    requires Parsed(before, after) && !Shadowing(before, after)
    requires forall k :: k in ks ==> k in before || k in after
    ensures ServerDiff(ks, before, after) == Filter(SeenByBoth(), PreviewDiff(ks, before, after))
  {
    if ks == [] {
    } else {
      var front, last := ks[..|ks| - 1], ks[|ks| - 1];
      assert ks == front + [last] && last in ks;
      EntriesRefine(front, before, after);
      EntryRefines(last, before, after);
      FilterConcat(SeenByBoth(), PreviewDiff(front, before, after), PreviewEntry(last, before, after));
    }
  }

  lemma {:induction false} EntriesPerKey(ks: seq<string>, before: Args, after: Args, e: Entry)
    ensures e in PreviewDiff(ks, before, after) <==> exists k :: k in ks && e in PreviewEntry(k, before, after)
  {
    if ks == [] {
    } else {
      var front, last := ks[..|ks| - 1], ks[|ks| - 1];
      assert ks == front + [last];
      EntriesPerKey(front, before, after, e);
      assert last in ks;
    }
  }

  lemma RecordedIsPlain(before: Args, after: Args, e: Entry)
    requires Parsed(before, after) && e in Recorded(before, after)
    ensures !e.before.Inherited? && !e.after.Inherited?
  {
    RecordedIff(before, after, e);
  }

  lemma Misread(before: Args, after: Args, k: string) returns (e: Entry)
    requires Parsed(before, after) && k in PROTOTYPE && (k in before <==> k !in after)
    ensures PreviewEntry(k, before, after) == [e] && (e.before.Inherited? || e.after.Inherited?)
  {
    e := Entry(k, Changed, ReadMember(k, before), ReadMember(k, after));
  }

  lemma NoLookalikeInherited(e: Entry)
    requires e.before.Inherited? || e.after.Inherited?
    ensures SeenByBoth()(e)
  {
  }

  lemma InheritedShown(before: Args, after: Args, k: string, e: Entry)
    requires Parsed(before, after) && (k in before || k in after) && PreviewEntry(k, before, after) == [e]
    requires e.before.Inherited? || e.after.Inherited?
    ensures e in Preview(before, after) && e !in Recorded(before, after)
  {
    assert e in PreviewEntry(k, before, after);
    EntriesPerKey(SortedKeys(before.Keys + after.Keys), before, after, e);
    if e in Recorded(before, after) { RecordedIsPlain(before, after, e); }
  }

  /** A key of one side only, named like an inherited member, is previewed as changed from or to that
      member; no such entry is ever recorded. */
  lemma ShadowedKeyMisread(before: Args, after: Args, k: string) returns (e: Entry)
    requires Parsed(before, after) && k in PROTOTYPE && (k in before <==> k !in after)
    ensures e in Preview(before, after) && e !in Recorded(before, after) && SeenByBoth()(e)
  {
    e := Misread(before, after, k);
    InheritedShown(before, after, k, e);
    NoLookalikeInherited(e);
  }

  /** The record is the preview without its changes between lookalikes, if and only if no key added or
      removed is named like an `Object.prototype` member, which `in` finds on every object. */
  lemma PreviewRefines(before: Args, after: Args)
    requires Parsed(before, after)
    ensures Recorded(before, after) == Filter(SeenByBoth(), Preview(before, after)) <==> !Shadowing(before, after)
  {
    if !Shadowing(before, after) {
      EntriesRefine(SortedKeys(before.Keys + after.Keys), before, after);
    } else {
      var k :| k in PROTOTYPE && (k in before <==> k !in after);
      var e := ShadowedKeyMisread(before, after, k);
      FilterMember(SeenByBoth(), Preview(before, after), e);
    }
  }

  lemma LookalikeShown(before: Args, after: Args, k: string) returns (e: Entry)
    requires Parsed(before, after) && k in before && k in after && Lookalike(before[k], after[k])
    ensures e in Preview(before, after) && e !in Recorded(before, after)
  {
    var ks := SortedKeys(before.Keys + after.Keys);
    e := Entry(k, Changed, before[k], after[k]);
    EntriesPerKey(ks, before, after, e);
    assert PreviewEntry(k, before, after) == [e];
    RecordedIff(before, after, e);
  }

  lemma EntrySeen(k: string, before: Args, after: Args, e: Entry)
    requires Parsed(before, after) && (k in before || k in after) && e in PreviewEntry(k, before, after)
    requires k in before && k in after ==> !Lookalike(before[k], after[k])
    ensures SeenByBoth()(e)
  {
  }

  lemma NoLookalikeShown(before: Args, after: Args, e: Entry)
    requires Parsed(before, after) && !Lookalikes(before, after) && e in Preview(before, after)
    ensures SeenByBoth()(e)
  {
    var ks := SortedKeys(before.Keys + after.Keys);
    EntriesPerKey(ks, before, after, e);
    var k :| k in ks && e in PreviewEntry(k, before, after);
    EntrySeen(k, before, after, e);
  }

  /** Preview and record are one and the same if and only if no key added or removed is named like an
      `Object.prototype` member and no key's values are lookalikes. */
  lemma PreviewEqualsRecordIff(before: Args, after: Args)
    requires Parsed(before, after)
    ensures Preview(before, after) == Recorded(before, after) <==>
            !Shadowing(before, after) && !Lookalikes(before, after)
  {
    PreviewRefines(before, after);
    if Shadowing(before, after) {
      var k :| k in PROTOTYPE && (k in before <==> k !in after);
      var _ := ShadowedKeyMisread(before, after, k);
    } else if Lookalikes(before, after) {
      var k :| k in before && k in after && Lookalike(before[k], after[k]);
      var _ := LookalikeShown(before, after, k);
    } else {
      forall e | e in Preview(before, after) ensures SeenByBoth()(e) { NoLookalikeShown(before, after, e); }
      FilterAllOrNone(SeenByBoth(), Preview(before, after));
    }
  }

  lemma OneKey(k: string)
    ensures SortedKeys({k}) == [k]
  {
    SortedKeysUnique(SortedKeys({k}), [k], {k});
  }

  /** Changing 1 to `true` is previewed and not recorded. */
  lemma OneForTrue()
    ensures var before, after := map["retries" := Number(1.0)], map["retries" := Boolean(true)];
            && Preview(before, after) == [Entry("retries", Changed, Number(1.0), Boolean(true))]
            && Recorded(before, after) == []
  {
    var before, after := map["retries" := Number(1.0)], map["retries" := Boolean(true)];
    assert before.Keys + after.Keys == {"retries"};
    OneKey("retries");
    assert ["retries"][..0] == [];
  }

  /** Adding a key named `toString` is recorded as an addition and previewed as a change of the
      inherited member. */
  lemma ToStringAdded()
    ensures var before, after: Args := map[], map["toString" := Number(1.0)];
            && Recorded(before, after) == [Entry("toString", Added, Null, Number(1.0))]
            && Preview(before, after) == [Entry("toString", Changed, Inherited("toString"), Number(1.0))]
  {
    var before: Args, after: Args := map[], map["toString" := Number(1.0)];
    assert before.Keys + after.Keys == {"toString"};
    OneKey("toString");
    assert ["toString"][..0] == [];
  }
}
