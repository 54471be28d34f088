/** The faculty library: `buildFacultyLibrary` of dashboard/src/lib/api.ts. */
module Faculty {
  import opened Sequences
  import opened Sorting
  import opened Wrappers

  datatype Binding = Binding(name: string, version: string, description: Option<string>)
  datatype MandateType = MandateType(title: string, faculties: seq<Binding>)
  datatype Entry = Entry(name: string, version: string, description: string, category: string, usedBy: seq<string>)

  /** One faculty bound by one mandate type; the nested loops visit these in order. */
  datatype Ref = Ref(title: string, binding: Binding)

  function KeyText(name: string, version: string): string { name + "@" + version }
  function RefKey(): Ref -> string { (r: Ref) => KeyText(r.binding.name, r.binding.version) }
  function EntryKey(): Entry -> string { (e: Entry) => KeyText(e.name, e.version) }
  function RefTitle(): Ref -> string { (r: Ref) => r.title }
  function HasKey(k: string): Ref -> bool { (r: Ref) => RefKey()(r) == k }
  function KeyOutside(ks: seq<string>): Entry -> bool { (e: Entry) => EntryKey()(e) !in ks }

  function RefsOf(t: MandateType): seq<Ref> {
    seq(|t.faculties|, k requires 0 <= k < |t.faculties| => Ref(t.title, t.faculties[k]))
  }

  function Refs(types: seq<MandateType>): seq<Ref> {
    if types == [] then [] else Refs(types[..|types| - 1]) + RefsOf(types[|types| - 1])
  }

  function Describe(b: Binding): string {
    if b.description.Some? then b.description.value else "Faculty " + b.name + " (" + b.version + ")."
  }

  /** The entry of a key: described by its first reference, used by each binding title once. */
  function EntryFor(refs: seq<Ref>, cat: string -> string): Entry
    requires refs != []
  {
    var b := refs[0].binding;
    Entry(b.name, b.version, Describe(b), cat(b.name), Keys(RefTitle(), DedupBy(RefTitle(), refs)))
  }

  function KeyOrder(refs: seq<Ref>): seq<string> { Keys(RefKey(), DedupBy(RefKey(), refs)) }

  predicate ByCategoryThenName(a: Entry, b: Entry) {
    if a.category != b.category then StringLe(a.category, b.category) else StringLe(a.name, b.name)
  }

  // ---- Construction --------------------------------------------------------------------------

  ghost predicate KeyCollected(seen: map<string, Entry>, refs: seq<Ref>, cat: string -> string, k: string) {
    && (k in seen <==> Filter(HasKey(k), refs) != [])
    && (k in seen ==> seen[k] == EntryFor(Filter(HasKey(k), refs), cat))
  }

  ghost predicate Collected(seen: map<string, Entry>, order: seq<string>, refs: seq<Ref>, cat: string -> string) {
    && order == KeyOrder(refs)
    && (forall k :: k in seen <==> k in order)
    && (forall k :: KeyCollected(seen, refs, cat, k))
  }

  /** The loop body: extend `used_by`, or add an entry. */
  function Visit(seen: map<string, Entry>, r: Ref, cat: string -> string): map<string, Entry> {
    var k := RefKey()(r);
    if k in seen then
      var e := seen[k];
      if r.title in e.usedBy then seen else seen[k := e.(usedBy := e.usedBy + [r.title])]
    else seen[k := Entry(r.binding.name, r.binding.version, Describe(r.binding), cat(r.binding.name), [r.title])]
  }

  lemma KeyGroup(refs: seq<Ref>, r: Ref, k: string)
    ensures Filter(HasKey(k), refs + [r]) ==
            if RefKey()(r) == k then Filter(HasKey(k), refs) + [r] else Filter(HasKey(k), refs)
  {
    FilterSnoc(HasKey(k), refs, r);
  }

  lemma EntryGrows(h: seq<Ref>, r: Ref, cat: string -> string)
    ensures h == [] ==> EntryFor(h + [r], cat).usedBy == [r.title]
    ensures h != [] ==> var e := EntryFor(h, cat);
              EntryFor(h + [r], cat) == if r.title in e.usedBy then e else e.(usedBy := e.usedBy + [r.title])
  {
    DedupSnoc(RefTitle(), h, r);
    var d := DedupBy(RefTitle(), h);
    assert Keys(RefTitle(), d + [r]) == Keys(RefTitle(), d) + [r.title];
    if h != [] { assert (h + [r])[0] == h[0]; }
  }

  lemma OrderGrows(refs: seq<Ref>, r: Ref)
    ensures KeyOrder(refs + [r]) ==
            if RefKey()(r) in KeyOrder(refs) then KeyOrder(refs) else KeyOrder(refs) + [RefKey()(r)]
  {
    DedupSnoc(RefKey(), refs, r);
    var d := DedupBy(RefKey(), refs);
    assert Keys(RefKey(), d + [r]) == Keys(RefKey(), d) + [RefKey()(r)];
  }

  lemma VisitKey(seen: map<string, Entry>, refs: seq<Ref>, r: Ref, cat: string -> string, k: string)
    requires KeyCollected(seen, refs, cat, k) && KeyCollected(seen, refs, cat, RefKey()(r))
    ensures KeyCollected(Visit(seen, r, cat), refs + [r], cat, k)
  {
    KeyGroup(refs, r, k);
    if RefKey()(r) == k {
      var h := Filter(HasKey(k), refs);
      EntryGrows(h, r, cat);
      if h == [] {
        assert h + [r] == [r];
        assert EntryFor([r], cat).usedBy == [r.title];
      }
    }
  }

  lemma VisitCollects(seen: map<string, Entry>, order: seq<string>, refs: seq<Ref>, r: Ref, cat: string -> string)
    requires Collected(seen, order, refs, cat)
    ensures Collected(Visit(seen, r, cat), if RefKey()(r) in seen then order else order + [RefKey()(r)],
                      refs + [r], cat)
  {
    OrderGrows(refs, r);
    forall k ensures KeyCollected(Visit(seen, r, cat), refs + [r], cat, k) {
      assert KeyCollected(seen, refs, cat, k) && KeyCollected(seen, refs, cat, RefKey()(r));
      VisitKey(seen, refs, r, cat, k);
    }
  }

  lemma KeysReferenced(refs: seq<Ref>)
    ensures forall k :: k in KeyOrder(refs) <==> exists r :: r in refs && RefKey()(r) == k
    ensures forall k :: k in KeyOrder(refs) ==> Filter(HasKey(k), refs) != []
  {
    DedupMeaning(RefKey(), refs);
    forall k ensures k in KeyOrder(refs) <==> exists r :: r in refs && RefKey()(r) == k {
      KeysMember(RefKey(), refs, k);
    }
    forall k | k in KeyOrder(refs) ensures Filter(HasKey(k), refs) != [] {
      var r :| r in refs && RefKey()(r) == k;
      FilterMember(HasKey(k), refs, r);
    }
  }

  /** One entry per referenced key, in order of first reference. */
  function Referenced(refs: seq<Ref>, cat: string -> string): seq<Entry> {
    var order := KeyOrder(refs);
    KeysReferenced(refs);
    seq(|order|, i requires 0 <= i < |order| => EntryFor(Filter(HasKey(order[i]), refs), cat))
  }

  /** Fixture entries of keys nobody references, one per key. */
  function FixtureOnly(order: seq<string>, fixtures: seq<Entry>): seq<Entry> {
    DedupBy(EntryKey(), Filter(KeyOutside(order), fixtures))
  }

  function Library(refs: seq<Ref>, fixtures: seq<Entry>, cat: string -> string): seq<Entry> {
    Sort(ByCategoryThenName, Referenced(refs, cat) + FixtureOnly(KeyOrder(refs), fixtures))
  }

  lemma EntryAt(seen: map<string, Entry>, keys: seq<string>, cat: string -> string, refs: seq<Ref>, k: nat)
    requires Collected(seen, keys, refs, cat) && k < |keys|
    ensures |Referenced(refs, cat)| == |keys| && keys[k] in seen && seen[keys[k]] == Referenced(refs, cat)[k]
  {
    assert keys[k] in keys && KeyCollected(seen, refs, cat, keys[k]);
  }

  /** The entries of the map, in insertion order. */
  method ListEntries(seen: map<string, Entry>, keys: seq<string>, cat: string -> string, ghost refs: seq<Ref>)
    returns (entries: seq<Entry>)
    requires Collected(seen, keys, refs, cat)
    ensures entries == Referenced(refs, cat)
  {
    entries := [];
    for k := 0 to |keys|
      invariant |Referenced(refs, cat)| == |keys| && entries == Referenced(refs, cat)[..k]
    {
      EntryAt(seen, keys, cat, refs, k);
      entries := entries + [seen[keys[k]]];
    }
  }

  lemma TakeOneMore(before: seq<Ref>, refs: seq<Ref>, f: nat)
    requires f < |refs|
    ensures before + refs[..f + 1] == (before + refs[..f]) + [refs[f]]
  {
  }

  lemma VisitNext(seen: map<string, Entry>, order: seq<string>, before: seq<Ref>, refs: seq<Ref>, f: nat,
                  cat: string -> string)
    requires f < |refs| && Collected(seen, order, before + refs[..f], cat)
    ensures Collected(Visit(seen, refs[f], cat),
                      if RefKey()(refs[f]) in seen then order else order + [RefKey()(refs[f])],
                      before + refs[..f + 1], cat)
  {
    TakeOneMore(before, refs, f);
    VisitCollects(seen, order, before + refs[..f], refs[f], cat);
  }

  /** The inner loop over one mandate type's faculties. */
  method VisitAll(seen0: map<string, Entry>, order0: seq<string>, refs: seq<Ref>, cat: string -> string,
                  ghost before: seq<Ref>)
    returns (seen: map<string, Entry>, order: seq<string>)
    requires Collected(seen0, order0, before, cat)
    ensures Collected(seen, order, before + refs, cat)
  {
    seen, order := seen0, order0;
    assert before + refs[..0] == before;
    for f := 0 to |refs|
      invariant Collected(seen, order, before + refs[..f], cat)
    {
      VisitNext(seen, order, before, refs, f, cat);
      if RefKey()(refs[f]) !in seen { order := order + [RefKey()(refs[f])]; }
      seen := Visit(seen, refs[f], cat);
    }
    assert refs[..|refs|] == refs;
  }

  method CollectReferences(types: seq<MandateType>, cat: string -> string)
    returns (seen: map<string, Entry>, order: seq<string>)
    ensures Collected(seen, order, Refs(types), cat)
  {
    seen, order := map[], [];
    for t := 0 to |types|
      invariant Collected(seen, order, Refs(types[..t]), cat)
    {
      assert types[..t + 1][..t] == types[..t];
      seen, order := VisitAll(seen, order, RefsOf(types[t]), cat, Refs(types[..t]));
    }
    assert types[..|types|] == types;
  }

  lemma FixtureAdds(order: seq<string>, fixtures: seq<Entry>, e: Entry)
    ensures var extra, extra' := FixtureOnly(order, fixtures), FixtureOnly(order, fixtures + [e]);
            if EntryKey()(e) in order || EntryKey()(e) in Keys(EntryKey(), extra) then extra' == extra
            else extra' == extra + [e] && Keys(EntryKey(), extra') == Keys(EntryKey(), extra) + [EntryKey()(e)]
  {
    FilterSnoc(KeyOutside(order), fixtures, e);
    DedupSnoc(EntryKey(), Filter(KeyOutside(order), fixtures), e);
  }

  method AddFixtures(order: seq<string>, fixtures: seq<Entry>) returns (extra: seq<Entry>)
    ensures extra == FixtureOnly(order, fixtures)
  {
    extra := [];
    var added: set<string> := {};
    for k := 0 to |fixtures|
      invariant extra == FixtureOnly(order, fixtures[..k])
      invariant forall x :: x in added <==> x in Keys(EntryKey(), extra)
    {
      var e := fixtures[k];
      assert fixtures[..k + 1] == fixtures[..k] + [e];
      FixtureAdds(order, fixtures[..k], e);
      if EntryKey()(e) !in order && EntryKey()(e) !in added {
        extra := extra + [e];
        added := added + {EntryKey()(e)};
      }
    }
    assert fixtures[..|fixtures|] == fixtures;
  }

  method BuildFacultyLibrary(types: seq<MandateType>, fixtures: seq<Entry>, cat: string -> string)
    returns (library: seq<Entry>)
    ensures library == Library(Refs(types), fixtures, cat)
  {
    var seen, keys := CollectReferences(types, cat);
    var entries := ListEntries(seen, keys, cat, Refs(types));
    var extra := AddFixtures(keys, fixtures);
    library := Sort(ByCategoryThenName, entries + extra);
  }

  // ---- Meaning -------------------------------------------------------------------------------

  /** Neither name continues the other with an `@`. */
  predicate Separate(n: string, m: string) { !(n + "@" <= m) && !(m + "@" <= n) }

  lemma ShorterName(n: string, v: string, m: string, w: string)
    requires KeyText(n, v) == KeyText(m, w) && |n| < |m|
    ensures n + "@" <= m
  {
    var k := KeyText(n, v);
    assert n + "@" == k[..|n| + 1] == KeyText(m, w)[..|n| + 1] == m[..|n| + 1];
  }

  lemma SameLength(n: string, v: string, m: string, w: string)
    requires KeyText(n, v) == KeyText(m, w) && |n| == |m|
    ensures n == m && v == w
  {
    assert KeyText(n, v)[..|n|] == n && KeyText(m, w)[..|m|] == m;
    assert KeyText(n, v)[|n| + 1..] == v && KeyText(m, w)[|m| + 1..] == w;
  }

  lemma Continued(n: string, m: string) returns (v: string)
    requires n + "@" <= m
    ensures KeyText(n, v) == KeyText(m, "") && n != m
  {
    v := m[|n| + 1..] + "@";
    assert m == n + "@" + m[|n| + 1..];
  }

  /** The key tells two names apart, whatever the versions, if and only if neither continues the other
      with an `@`. */
  lemma KeyInjective(n: string, m: string)
    ensures (forall v, w :: KeyText(n, v) == KeyText(m, w) ==> n == m && v == w) <==> Separate(n, m)
  {
    if Separate(n, m) {
      forall v, w | KeyText(n, v) == KeyText(m, w) ensures n == m && v == w {
        if |n| < |m| { ShorterName(n, v, m, w); }
        if |m| < |n| { ShorterName(m, w, n, v); }
        SameLength(n, v, m, w);
      }
    } else if n + "@" <= m {
      var v := Continued(n, m);
      assert KeyText(n, v) == KeyText(m, "");
    } else {
      var v := Continued(m, n);
      assert KeyText(n, "") == KeyText(m, v);
    }
  }

  lemma ByCategoryThenNameIsTotal()
    ensures TotalPreorder(ByCategoryThenName)
  {
    StringLeIsTotalPreorder();
  }

  /** Exactly the titles binding the entry's key, once each. */
  ghost predicate UsedByBinders(e: Entry, refs: seq<Ref>) {
    && Distinct(e.usedBy)
    && forall t :: t in e.usedBy <==> exists r :: r in refs && RefKey()(r) == EntryKey()(e) && r.title == t
  }

  lemma UsersOf(refs: seq<Ref>, k: string, cat: string -> string)
    requires Filter(HasKey(k), refs) != []
    ensures var e := EntryFor(Filter(HasKey(k), refs), cat);
            EntryKey()(e) == k && UsedByBinders(e, refs)
  {
    var h := Filter(HasKey(k), refs);
    FilterMember(HasKey(k), refs, h[0]);
    DedupMeaning(RefTitle(), h);
    forall t ensures t in Keys(RefTitle(), h) <==> exists r :: r in refs && RefKey()(r) == k && r.title == t {
      KeysMember(RefTitle(), h, t);
      forall r ensures r in h <==> r in refs && RefKey()(r) == k { FilterMember(HasKey(k), refs, r); }
    }
  }

  lemma OwnKeys(refs: seq<Ref>, cat: string -> string)
    ensures Keys(EntryKey(), Referenced(refs, cat)) == KeyOrder(refs)
  {
    var order := KeyOrder(refs);
    KeysReferenced(refs);
    forall i | 0 <= i < |order| ensures EntryKey()(Referenced(refs, cat)[i]) == order[i] {
      assert order[i] in order;
      UsersOf(refs, order[i], cat);
    }
  }

  lemma ExtraKeys(order: seq<string>, fixtures: seq<Entry>)
    ensures Distinct(Keys(EntryKey(), FixtureOnly(order, fixtures)))
    ensures forall k :: k in Keys(EntryKey(), FixtureOnly(order, fixtures)) ==> k !in order
  {
    DedupMeaning(EntryKey(), Filter(KeyOutside(order), fixtures));
    var extra := FixtureOnly(order, fixtures);
    forall k | k in Keys(EntryKey(), extra) ensures k !in order {
      KeysMember(EntryKey(), extra, k);
      var e :| e in extra && EntryKey()(e) == k;
      FilterMember(KeyOutside(order), fixtures, e);
    }
  }

  lemma ApartConcat(a: seq<string>, b: seq<string>)
    requires Distinct(a) && Distinct(b) && forall k :: k in b ==> k !in a
    ensures Distinct(a + b)
  {
    forall i, j | 0 <= i < |a| && 0 <= j < |b| ensures a[i] != b[j] { assert b[j] in b; }
  }

  lemma KeysConcat(a: seq<Entry>, b: seq<Entry>)
    ensures Keys(EntryKey(), a + b) == Keys(EntryKey(), a) + Keys(EntryKey(), b)
  {
  }

  lemma KeysApart(refs: seq<Ref>, fixtures: seq<Entry>, cat: string -> string)
    ensures Distinct(Keys(EntryKey(), Referenced(refs, cat) + FixtureOnly(KeyOrder(refs), fixtures)))
  {
    var order := KeyOrder(refs);
    DedupMeaning(RefKey(), refs);
    OwnKeys(refs, cat);
    ExtraKeys(order, fixtures);
    ApartConcat(order, Keys(EntryKey(), FixtureOnly(order, fixtures)));
    KeysConcat(Referenced(refs, cat), FixtureOnly(order, fixtures));
  }

  /** The library: a sorted permutation of one entry per referenced key, each used by exactly the
      titles binding it, once each, and of the fixtures nobody references. */
  lemma LibraryByKey(refs: seq<Ref>, fixtures: seq<Entry>, cat: string -> string)
    ensures var all := Referenced(refs, cat) + FixtureOnly(KeyOrder(refs), fixtures);
            && Sorted(ByCategoryThenName, Library(refs, fixtures, cat))
            && multiset(Library(refs, fixtures, cat)) == multiset(all)
            && Distinct(Keys(EntryKey(), all))
    ensures Keys(EntryKey(), Referenced(refs, cat)) == KeyOrder(refs)
    ensures forall k :: k in KeyOrder(refs) <==> exists r :: r in refs && RefKey()(r) == k
    ensures forall e :: e in Referenced(refs, cat) ==> UsedByBinders(e, refs)
  {
    ByCategoryThenNameIsTotal();
    SortSorts(ByCategoryThenName, Referenced(refs, cat) + FixtureOnly(KeyOrder(refs), fixtures));
    KeysReferenced(refs);
    OwnKeys(refs, cat);
    KeysApart(refs, fixtures, cat);
    forall e | e in Referenced(refs, cat) ensures UsedByBinders(e, refs) {
      var i :| 0 <= i < |KeyOrder(refs)| && Referenced(refs, cat)[i] == e;
      assert KeyOrder(refs)[i] in KeyOrder(refs);
      UsersOf(refs, KeyOrder(refs)[i], cat);
    }
  }

  lemma FirstOfGroup(refs: seq<Ref>, p: nat, cat: string -> string)
    requires p < |refs| && FirstAt(HasKey(RefKey()(refs[p])), refs, p)
    ensures var k := RefKey()(refs[p]);
            Filter(HasKey(k), refs) != [] && Filter(HasKey(k), refs)[0] == refs[p] && k in KeyOrder(refs)
  {
    var k := RefKey()(refs[p]);
    FilterEnds(HasKey(k), refs, p);
    KeysReferenced(refs);
    assert refs[p] in refs;
  }

  /** The entry of a key is its first reference's: its name and version, the category of its name, and its
      description, or one made of name and version. */
  lemma DescribedByFirst(refs: seq<Ref>, fixtures: seq<Entry>, cat: string -> string, p: nat) returns (e: Entry)
    requires p < |refs| && FirstAt(HasKey(RefKey()(refs[p])), refs, p)
    ensures e in Library(refs, fixtures, cat) && UsedByBinders(e, refs)
    ensures var b := refs[p].binding;
            && e.name == b.name && e.version == b.version && e.category == cat(b.name)
            && (b.description.Some? ==> e.description == b.description.value)
            && (b.description.None? ==> e.description == "Faculty " + b.name + " (" + b.version + ").")
  {
    var k, order := RefKey()(refs[p]), KeyOrder(refs);
    FirstOfGroup(refs, p, cat);
    var i :| 0 <= i < |order| && order[i] == k;
    e := Referenced(refs, cat)[i];
    assert e in Referenced(refs, cat);
    LibraryByKey(refs, fixtures, cat);
    assert e in multiset(Referenced(refs, cat) + FixtureOnly(order, fixtures));
    assert e in multiset(Library(refs, fixtures, cat));
  }

  // ---- By name and version -------------------------------------------------------------------

  function RefPair(): Ref -> (string, string) { (r: Ref) => (r.binding.name, r.binding.version) }
  function EntryPair(): Entry -> (string, string) { (e: Entry) => (e.name, e.version) }
  function Binds(p: (string, string)): Ref -> bool { (r: Ref) => RefPair()(r) == p }
  function PairOutside(refs: seq<Ref>): Entry -> bool { (e: Entry) => EntryPair()(e) !in Keys(RefPair(), refs) }

  function NamesIn(refs: seq<Ref>, fixtures: seq<Entry>): set<string> {
    (set r | r in refs :: r.binding.name) + (set f | f in fixtures :: f.name)
  }

  function PairsIn(refs: seq<Ref>, fixtures: seq<Entry>): set<(string, string)> {
    (set r | r in refs :: RefPair()(r)) + (set f | f in fixtures :: EntryPair()(f))
  }

  predicate SameKey(p: (string, string), q: (string, string)) { KeyText(p.0, p.1) == KeyText(q.0, q.1) }

  /** No two different pairs of the input share a key. */
  ghost predicate PairsSeparate(refs: seq<Ref>, fixtures: seq<Entry>) {
    forall p, q :: p in PairsIn(refs, fixtures) && q in PairsIn(refs, fixtures) && SameKey(p, q) ==> p == q
  }

  ghost predicate NamesSeparate(refs: seq<Ref>, fixtures: seq<Entry>) {
    forall n, m :: n in NamesIn(refs, fixtures) && m in NamesIn(refs, fixtures) ==> Separate(n, m)
  }

  lemma NamesSeparatePairs(refs: seq<Ref>, fixtures: seq<Entry>)
    requires NamesSeparate(refs, fixtures)
    ensures PairsSeparate(refs, fixtures)
  {
    forall p, q | p in PairsIn(refs, fixtures) && q in PairsIn(refs, fixtures) && SameKey(p, q) ensures p == q {
      assert p.0 in NamesIn(refs, fixtures) && q.0 in NamesIn(refs, fixtures);
      KeyInjective(p.0, q.0);
    }
  }

  lemma KeyIsPair(refs: seq<Ref>, fixtures: seq<Entry>, p: (string, string), q: (string, string))
    requires PairsSeparate(refs, fixtures) && p in PairsIn(refs, fixtures) && q in PairsIn(refs, fixtures)
    ensures KeyText(p.0, p.1) == KeyText(q.0, q.1) <==> p == q
  {
    assert SameKey(p, q) ==> p == q;
  }

  /** Of the fixtures no reference binds, the first of each pair. */
  function ExtraByPair(refs: seq<Ref>, fixtures: seq<Entry>): seq<Entry> {
    DedupBy(EntryPair(), Filter(PairOutside(refs), fixtures))
  }

  /** The titles binding a pair, in order of first occurrence, once each. */
  function TitlesBinding(refs: seq<Ref>, p: (string, string)): seq<string> {
    Keys(RefTitle(), DedupBy(RefTitle(), Filter(Binds(p), refs)))
  }

  lemma GroupIsPair(refs: seq<Ref>, fixtures: seq<Entry>, r: Ref)
    requires PairsSeparate(refs, fixtures) && r in refs
    ensures Filter(HasKey(RefKey()(r)), refs) == Filter(Binds(RefPair()(r)), refs)
  {
    forall x | x in refs ensures HasKey(RefKey()(r))(x) == Binds(RefPair()(r))(x) {
      KeyIsPair(refs, fixtures, RefPair()(x), RefPair()(r));
    }
    FilterAgree(HasKey(RefKey()(r)), Binds(RefPair()(r)), refs);
  }

  lemma EntryOfPair(refs: seq<Ref>, fixtures: seq<Entry>, cat: string -> string, i: nat)
    requires PairsSeparate(refs, fixtures) && i < |Referenced(refs, cat)|
    ensures var e := Referenced(refs, cat)[i];
            (exists r :: r in refs && RefPair()(r) == EntryPair()(e)) && e.usedBy == TitlesBinding(refs, EntryPair()(e))
  {
    KeysReferenced(refs);
    var k := KeyOrder(refs)[i];
    assert k in KeyOrder(refs);
    var h := Filter(HasKey(k), refs);
    FilterMember(HasKey(k), refs, h[0]);
    GroupIsPair(refs, fixtures, h[0]);
  }

  lemma FixturesByPair(refs: seq<Ref>, fixtures: seq<Entry>)
    requires PairsSeparate(refs, fixtures)
    ensures FixtureOnly(KeyOrder(refs), fixtures) == ExtraByPair(refs, fixtures)
  {
    KeysReferenced(refs);
    forall f | f in fixtures ensures KeyOutside(KeyOrder(refs))(f) == PairOutside(refs)(f) {
      forall r | r in refs ensures RefKey()(r) == EntryKey()(f) <==> RefPair()(r) == EntryPair()(f) {
        KeyIsPair(refs, fixtures, RefPair()(r), EntryPair()(f));
      }
      KeysMember(RefPair(), refs, EntryPair()(f));
    }
    FilterAgree(KeyOutside(KeyOrder(refs)), PairOutside(refs), fixtures);
    var rest := Filter(PairOutside(refs), fixtures);
    forall a, b | a in rest && b in rest ensures EntryKey()(a) == EntryKey()(b) <==> EntryPair()(a) == EntryPair()(b) {
      FilterMember(PairOutside(refs), fixtures, a);
      FilterMember(PairOutside(refs), fixtures, b);
      KeyIsPair(refs, fixtures, EntryPair()(a), EntryPair()(b));
    }
    DedupSame(EntryKey(), EntryPair(), rest);
  }

  lemma PairsApart(refs: seq<Ref>, fixtures: seq<Entry>, cat: string -> string)
    ensures Distinct(Keys(EntryPair(), Referenced(refs, cat) + FixtureOnly(KeyOrder(refs), fixtures)))
  {
    var all := Referenced(refs, cat) + FixtureOnly(KeyOrder(refs), fixtures);
    KeysApart(refs, fixtures, cat);
    forall i, j | 0 <= i < j < |all| ensures Keys(EntryPair(), all)[i] != Keys(EntryPair(), all)[j] {
      assert Keys(EntryKey(), all)[i] != Keys(EntryKey(), all)[j];
    }
  }

  lemma PairHasEntry(refs: seq<Ref>, fixtures: seq<Entry>, cat: string -> string, r: Ref)
    requires PairsSeparate(refs, fixtures) && r in refs
    ensures exists e :: e in Referenced(refs, cat) && EntryPair()(e) == RefPair()(r)
  {
    KeysReferenced(refs);
    assert RefKey()(r) in KeyOrder(refs);
    var i :| 0 <= i < |KeyOrder(refs)| && KeyOrder(refs)[i] == RefKey()(r);
    var h := Filter(HasKey(RefKey()(r)), refs);
    GroupIsPair(refs, fixtures, r);
    assert h[0] in h;
    FilterMember(Binds(RefPair()(r)), refs, h[0]);
    assert Referenced(refs, cat)[i] in Referenced(refs, cat);
  }

  lemma SamePairs(refs: seq<Ref>, fixtures: seq<Entry>, cat: string -> string, p: (string, string))
    requires PairsSeparate(refs, fixtures)
    ensures p in Keys(EntryPair(), Referenced(refs, cat)) <==> p in Keys(RefPair(), refs)
  {
    var entries := Referenced(refs, cat);
    KeysMember(RefPair(), refs, p);
    KeysMember(EntryPair(), entries, p);
    if p in Keys(EntryPair(), entries) {
      var i :| 0 <= i < |entries| && Keys(EntryPair(), entries)[i] == p;
      EntryOfPair(refs, fixtures, cat, i);
    }
    if r :| r in refs && RefPair()(r) == p { PairHasEntry(refs, fixtures, cat, r); }
  }

  /** One entry per name and version: never two, one for each bound pair, used by exactly the titles
      binding that pair in order of first occurrence; and of the fixtures, the first of each unbound
      pair. */
  ghost predicate OneEntryPerPair(refs: seq<Ref>, fixtures: seq<Entry>, cat: string -> string) {
    var extra := ExtraByPair(refs, fixtures);
    && multiset(Library(refs, fixtures, cat)) == multiset(Referenced(refs, cat) + extra)
    && Distinct(Keys(EntryPair(), Referenced(refs, cat) + extra))
    && (forall p :: p in Keys(EntryPair(), Referenced(refs, cat)) <==> p in Keys(RefPair(), refs))
    && (forall e :: e in Referenced(refs, cat) ==> e.usedBy == TitlesBinding(refs, EntryPair()(e)))
  }

  lemma LibraryByPair(refs: seq<Ref>, fixtures: seq<Entry>, cat: string -> string)
    requires PairsSeparate(refs, fixtures)
    ensures OneEntryPerPair(refs, fixtures, cat)
  {
    LibraryByKey(refs, fixtures, cat);
    FixturesByPair(refs, fixtures);
    PairsApart(refs, fixtures, cat);
    forall p ensures p in Keys(EntryPair(), Referenced(refs, cat)) <==> p in Keys(RefPair(), refs) {
      SamePairs(refs, fixtures, cat, p);
    }
    forall e | e in Referenced(refs, cat) ensures e.usedBy == TitlesBinding(refs, EntryPair()(e)) {
      var i :| 0 <= i < |Referenced(refs, cat)| && Referenced(refs, cat)[i] == e;
      EntryOfPair(refs, fixtures, cat, i);
    }
  }

  lemma ExtraListed(refs: seq<Ref>, fixtures: seq<Entry>, f: Entry) returns (e: Entry)
    requires f in fixtures && forall r :: r in refs ==> RefPair()(r) != EntryPair()(f)
    ensures e in ExtraByPair(refs, fixtures) && EntryPair()(e) == EntryPair()(f)
  {
    var rest := Filter(PairOutside(refs), fixtures);
    KeysMember(RefPair(), refs, EntryPair()(f));
    FilterMember(PairOutside(refs), fixtures, f);
    KeysMember(EntryPair(), rest, EntryPair()(f));
    DedupKeys(EntryPair(), rest);
    KeysMember(EntryPair(), DedupBy(EntryPair(), rest), EntryPair()(f));
    e :| e in DedupBy(EntryPair(), rest) && EntryPair()(e) == EntryPair()(f);
  }

  lemma SameMembers<T>(a: seq<T>, b: seq<T>, x: T)
    requires multiset(a) == multiset(b) && x in b
    ensures x in a
  {
    assert x in multiset(a);
  }

  lemma BoundListed(refs: seq<Ref>, fixtures: seq<Entry>, cat: string -> string, r: Ref) returns (e: Entry)
    requires OneEntryPerPair(refs, fixtures, cat) && r in refs
    ensures e in Referenced(refs, cat) && EntryPair()(e) == RefPair()(r)
  {
    KeysMember(RefPair(), refs, RefPair()(r));
    KeysMember(EntryPair(), Referenced(refs, cat), RefPair()(r));
    e :| e in Referenced(refs, cat) && EntryPair()(e) == RefPair()(r);
  }

  lemma InLibrary(refs: seq<Ref>, fixtures: seq<Entry>, cat: string -> string, e: Entry)
    requires OneEntryPerPair(refs, fixtures, cat) && (e in Referenced(refs, cat) || e in ExtraByPair(refs, fixtures))
    ensures e in Library(refs, fixtures, cat)
  {
    SameMembers(Library(refs, fixtures, cat), Referenced(refs, cat) + ExtraByPair(refs, fixtures), e);
  }

  lemma PairListed(refs: seq<Ref>, fixtures: seq<Entry>, cat: string -> string, p: (string, string)) returns (e: Entry)
    requires OneEntryPerPair(refs, fixtures, cat) && p in PairsIn(refs, fixtures)
    ensures e in Library(refs, fixtures, cat) && EntryPair()(e) == p
  {
    if r :| r in refs && RefPair()(r) == p {
      e := BoundListed(refs, fixtures, cat, r);
    } else {
      var f :| f in fixtures && EntryPair()(f) == p;
      e := ExtraListed(refs, fixtures, f);
    }
    InLibrary(refs, fixtures, cat, e);
  }

  lemma SameKeySame(s: seq<Entry>, e: Entry, f: Entry)
    requires Distinct(Keys(EntryKey(), s)) && e in s && f in s && EntryKey()(e) == EntryKey()(f)
    ensures e == f
  {
    var i :| 0 <= i < |s| && s[i] == e;
    var j :| 0 <= j < |s| && s[j] == f;
    assert Keys(EntryKey(), s)[i] == Keys(EntryKey(), s)[j];
  }

  /** The library never holds two entries of one key. */
  lemma OneEntryPerKey(refs: seq<Ref>, fixtures: seq<Entry>, cat: string -> string, e: Entry, f: Entry)
    requires e in Library(refs, fixtures, cat) && f in Library(refs, fixtures, cat) && EntryKey()(e) == EntryKey()(f)
    ensures e == f
  {
    LibraryByKey(refs, fixtures, cat);
    var all := Referenced(refs, cat) + FixtureOnly(KeyOrder(refs), fixtures);
    assert e in multiset(Library(refs, fixtures, cat)) && f in multiset(Library(refs, fixtures, cat));
    assert e in multiset(all) && f in multiset(all);
    SameKeySame(all, e, f);
  }

  /** There is one entry per name and version if and only if no two different pairs share a key. */
  lemma OneEntryPerPairIff(refs: seq<Ref>, fixtures: seq<Entry>, cat: string -> string)
    ensures OneEntryPerPair(refs, fixtures, cat) <==> PairsSeparate(refs, fixtures)
  {
    if PairsSeparate(refs, fixtures) {
      LibraryByPair(refs, fixtures, cat);
    } else if OneEntryPerPair(refs, fixtures, cat) {
      var p, q :| p in PairsIn(refs, fixtures) && q in PairsIn(refs, fixtures) && SameKey(p, q) && p != q;
      var e := PairListed(refs, fixtures, cat, p);
      var f := PairListed(refs, fixtures, cat, q);
      OneEntryPerKey(refs, fixtures, cat, e, f);
      assert false;
    }
  }

  lemma LibraryIsSorted(library: seq<Entry>)
    requires Sorted(ByCategoryThenName, library)
    ensures forall a, b :: 0 <= a < b < |library| ==>
              StringLe(library[a].category, library[b].category)
              && (library[a].category == library[b].category ==> StringLe(library[a].name, library[b].name))
  {
    StringLeIsTotalPreorder();
    forall a, b | 0 <= a < b < |library|
      ensures StringLe(library[a].category, library[b].category)
      ensures library[a].category == library[b].category ==> StringLe(library[a].name, library[b].name)
    {
      assert ByCategoryThenName(library[a], library[b]);
    }
  }

  /** Versions of one faculty: entries of its category and name. */
  function LikeNamed(e: Entry): Entry -> bool { (f: Entry) => f.category == e.category && f.name == e.name }

  lemma LikeNamedKeepOrder(all: seq<Entry>, e: Entry)
    ensures Filter(LikeNamed(e), Sort(ByCategoryThenName, all)) == Filter(LikeNamed(e), all)
  {
    ByCategoryThenNameIsTotal();
    StringLeTotal(e.name, e.name);
    EqualsKeepOrder(ByCategoryThenName, LikeNamed(e), all);
  }

  /** The library is sorted by category and name, like-named entries as they were met; it has one entry per
      key; and it has one entry per name and version, with exactly that pair's titles, if and only if no two
      different pairs share a key: as when no name continues another with an `@`. */
  lemma LibraryMeaning(refs: seq<Ref>, fixtures: seq<Entry>, cat: string -> string)
    ensures var library := Library(refs, fixtures, cat);
            forall a, b :: 0 <= a < b < |library| ==>
              StringLe(library[a].category, library[b].category)
              && (library[a].category == library[b].category ==> StringLe(library[a].name, library[b].name))
    ensures forall e: Entry :: Filter(LikeNamed(e), Library(refs, fixtures, cat)) ==
                               Filter(LikeNamed(e), Referenced(refs, cat) + FixtureOnly(KeyOrder(refs), fixtures))
    ensures Keys(EntryKey(), Referenced(refs, cat)) == KeyOrder(refs)
    ensures forall e :: e in Referenced(refs, cat) ==> UsedByBinders(e, refs)
    ensures OneEntryPerPair(refs, fixtures, cat) <==> PairsSeparate(refs, fixtures)
    ensures NamesSeparate(refs, fixtures) ==> OneEntryPerPair(refs, fixtures, cat)
  {
    LibraryByKey(refs, fixtures, cat);
    LibraryIsSorted(Library(refs, fixtures, cat));
    forall e: Entry ensures Filter(LikeNamed(e), Library(refs, fixtures, cat)) ==
                            Filter(LikeNamed(e), Referenced(refs, cat) + FixtureOnly(KeyOrder(refs), fixtures)) {
      LikeNamedKeepOrder(Referenced(refs, cat) + FixtureOnly(KeyOrder(refs), fixtures), e);
    }
    OneEntryPerPairIff(refs, fixtures, cat);
    if NamesSeparate(refs, fixtures) { NamesSeparatePairs(refs, fixtures); }
  }

  // ---- A collision ---------------------------------------------------------------------------

  function SignedName(): Ref { Ref("one", Binding("a@b", "c", None)) }
  function SignedVersion(): Ref { Ref("two", Binding("a", "b@c", None)) }

  function SharedKey(): string { RefKey()(SignedName()) }

  lemma KeysMeet()
    ensures RefKey()(SignedVersion()) == SharedKey() && RefPair()(SignedName()) != RefPair()(SignedVersion())
  {
    assert "a@b" + "@" + "c" == "a" + "@" + "b@c";
    assert |"a@b"| != |"a"|;
  }

  lemma OneGroup()
    ensures var refs := [SignedName(), SignedVersion()];
            KeyOrder(refs) == [SharedKey()] && Filter(HasKey(SharedKey()), refs) == refs
  {
    var r, q := SignedName(), SignedVersion();
    KeysMeet();
    FilterPair(HasKey(SharedKey()), r, q);
    OrderGrows([], r);
    OrderGrows([r], q);
    assert [] + [r] == [r] && [r] + [q] == [r, q];
  }

  lemma TwoTitles(r: Ref, q: Ref, cat: string -> string)
    requires r.title != q.title
    ensures EntryFor([r, q], cat).usedBy == [r.title, q.title]
  {
    EntryGrows([], r, cat);
    EntryGrows([r], q, cat);
    assert [] + [r] == [r] && [r] + [q] == [r, q];
  }

  lemma OneEntryLibrary(cat: string -> string)
    ensures Library([SignedName(), SignedVersion()], [], cat) == [EntryFor([SignedName(), SignedVersion()], cat)]
  {
    OneGroup();
    var e := EntryFor([SignedName(), SignedVersion()], cat);
    assert Referenced([SignedName(), SignedVersion()], cat) == [e];
    assert [e] + FixtureOnly([SharedKey()], []) == [e];
    SortOfSorted(ByCategoryThenName, [e]);
  }

  /** Two different faculties, one entry: the first, used by both titles; the second is lost. */
  lemma AtSignCollides(cat: string -> string)
    ensures RefPair()(SignedName()) == ("a@b", "c") && RefPair()(SignedVersion()) == ("a", "b@c")
    ensures var library := Library([SignedName(), SignedVersion()], [], cat);
            && |library| == 1 && EntryPair()(library[0]) == ("a@b", "c") && library[0].usedBy == ["one", "two"]
            && forall e :: e in library ==> EntryPair()(e) != RefPair()(SignedVersion())
  {
    KeysMeet();
    OneEntryLibrary(cat);
    TwoTitles(SignedName(), SignedVersion(), cat);
  }
}
