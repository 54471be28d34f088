/** Heading anchors: `slugId` of dashboard/src/components/docs/doc-viewer.tsx. */
module Slug {
  import opened Sequences
  import opened Text

  function LowerChar(c: char): char {
    if 'A' <= c <= 'Z' then (c as int + 32) as char else c
  }

  function Lower(s: string): string { if s == "" then "" else [LowerChar(s[0])] + Lower(s[1..]) }

  predicate IsWord(c: char) { 'a' <= c <= 'z' || IsDigit(c) }
  function Kept(): char -> bool { (c: char) => IsWord(c) || JsSpace()(c) || c == '-' }
  function NotBacktick(): char -> bool { (c: char) => c != '`' }

  /** `replace(/\s+/g, "-")` */
  function DashSpaces(s: string): string {
    if s == "" then ""
    else if !JsSpace()(s[0]) then [s[0]] + DashSpaces(s[1..])
    else if |s| > 1 && JsSpace()(s[1]) then DashSpaces(s[1..])
    else "-" + DashSpaces(s[1..])
  }

  /** `replace(/-+/g, "-")` */
  function Collapse(s: string): string {
    if s == "" then ""
    else if |s| > 1 && s[0] == '-' && s[1] == '-' then Collapse(s[1..])
    else [s[0]] + Collapse(s[1..])
  }

  /** `replace(/^-|-$/g, "")` */
  function StripDash(s: string): string {
    var t := if s != "" && s[0] == '-' then s[1..] else s;
    if t != "" && t[|t| - 1] == '-' then t[..|t| - 1] else t
  }

  /** The chain after `toLowerCase`. */
  function Normalize(lowered: string): string {
    StripDash(Collapse(DashSpaces(Filter(Kept(), Filter(NotBacktick(), Trim(JsSpace(), lowered))))))
  }

  type Level = n: nat | 1 <= n <= 4 witness 1

  function Base(level: Level, text: string): string {
    var slug := Normalize(Lower(text));
    if slug == "" then "h" + Numeral(level) else slug
  }

  predicate NormalForm(s: string) {
    && s != "" && (forall k :: 0 <= k < |s| ==> IsWord(s[k]) || s[k] == '-')
    && (forall k :: 0 <= k < |s| - 1 ==> !(s[k] == '-' && s[k + 1] == '-'))
    && s[0] != '-' && s[|s| - 1] != '-'
  }

  predicate Dashed(s: string) { forall k :: 0 <= k < |s| ==> IsWord(s[k]) || s[k] == '-' }
  predicate Single(s: string) { forall k :: 0 <= k < |s| - 1 ==> !(s[k] == '-' && s[k + 1] == '-') }

  predicate AllKept(s: string) { forall k :: 0 <= k < |s| ==> Kept()(s[k]) }

  lemma TailKept(s: string)
    requires s != "" && AllKept(s)
    ensures Kept()(s[0]) && AllKept(s[1..])
  {
    assert forall k :: 0 <= k < |s[1..]| ==> s[1..][k] == s[k + 1];
  }

  lemma {:induction false} DashSpacesDashes(s: string)
    requires AllKept(s)
    ensures Dashed(DashSpaces(s))
  {
    if s == "" {
    } else {
      TailKept(s);
      DashSpacesDashes(s[1..]);
      var rest := DashSpaces(s[1..]);
      assert Dashed("-" + rest);
      if !JsSpace()(s[0]) { assert Dashed([s[0]] + rest); }
    }
  }

  lemma {:induction false} DashSpacesFixed(s: string)
    requires Dashed(s)
    ensures DashSpaces(s) == s
  {
    if s == "" {
    } else {
      assert Dashed(s[1..]) by { assert forall k :: 0 <= k < |s[1..]| ==> s[1..][k] == s[k + 1]; }
      DashSpacesFixed(s[1..]);
      assert !JsSpace()(s[0]) && s == [s[0]] + s[1..];
    }
  }

  lemma {:induction false} CollapseSingles(s: string)
    requires Dashed(s)
    ensures Dashed(Collapse(s)) && Single(Collapse(s))
    ensures s != "" ==> Collapse(s) != "" && Collapse(s)[0] == s[0]
    ensures Single(s) ==> Collapse(s) == s
  {
    if s == "" {
    } else {
      assert s == [s[0]] + s[1..];
      assert Dashed(s[1..]) by { assert forall k :: 0 <= k < |s[1..]| ==> s[1..][k] == s[k + 1]; }
      CollapseSingles(s[1..]);
      if Single(s) { assert forall k :: 0 <= k < |s[1..]| ==> s[1..][k] == s[k + 1]; assert Single(s[1..]); }
    }
  }

  lemma StripNormal(s: string)
    requires Dashed(s) && Single(s)
    ensures StripDash(s) == "" || NormalForm(StripDash(s))
  {
    if s != "" && s[0] == '-' { assert forall k :: 0 <= k < |s[1..]| ==> s[1..][k] == s[k + 1]; }
    var t := if s != "" && s[0] == '-' then s[1..] else s;
    assert Dashed(t) && Single(t) && (t != "" ==> t[0] != '-');
  }

  /** Whatever the text, what remains is empty or in normal form. */
  lemma NormalizeNormal(lowered: string)
    ensures Normalize(lowered) == "" || NormalForm(Normalize(lowered))
  {
    var kept := Filter(Kept(), Filter(NotBacktick(), Trim(JsSpace(), lowered)));
    forall k | 0 <= k < |kept| ensures Kept()(kept[k]) {
      FilterMember(Kept(), Filter(NotBacktick(), Trim(JsSpace(), lowered)), kept[k]);
    }
    DashSpacesDashes(kept);
    CollapseSingles(DashSpaces(kept));
    StripNormal(Collapse(DashSpaces(kept)));
  }

  lemma {:induction false} LowerKeeps(s: string)
    requires Dashed(s)
    ensures Lower(s) == s
  {
    if s == "" {
    } else {
      assert s == [s[0]] + s[1..];
      assert Dashed(s[1..]) by { assert forall k :: 0 <= k < |s[1..]| ==> s[1..][k] == s[k + 1]; }
      LowerKeeps(s[1..]);
    }
  }

  lemma DashedIsPlain(s: string)
    requires Dashed(s)
    ensures forall c :: c in s ==> !JsSpace()(c) && NotBacktick()(c) && Kept()(c)
  {
  }

  lemma StripKeeps(s: string)
    requires NormalForm(s)
    ensures StripDash(s) == s && Trim(JsSpace(), s) == s
  {
    DashedIsPlain(s);
    assert s[0] in s && s[|s| - 1] in s;
  }

  /** Slugging a slug changes nothing. */
  lemma NormalizeFixed(s: string)
    requires NormalForm(s)
    ensures Normalize(Lower(s)) == s
  {
    LowerKeeps(s);
    DashedIsPlain(s);
    StripKeeps(s);
    FilterAllOrNone(NotBacktick(), s);
    FilterAllOrNone(Kept(), s);
    DashSpacesFixed(s);
    CollapseSingles(s);
  }

  lemma BaseNormalAndFixed(level: Level, text: string)
    ensures NormalForm(Base(level, text))
    ensures forall l: Level :: Base(l, Base(level, text)) == Base(level, text)
  {
    NormalizeNormal(Lower(text));
    NumeralReadsBack(level);
    assert Numeral(level) == [Digit(level)];
    NormalizeFixed(Base(level, text));
  }

  // ---- What the chain computes ---------------------------------------------------------------

  predicate IsSeparator(c: char) { JsSpace()(c) || c == '-' }
  predicate AllSeparators(s: string) { forall k :: 0 <= k < |s| ==> IsSeparator(s[k]) }

  /** The maximal runs of characters that are no separators. */
  function Words(s: string): (ws: seq<string>)
    ensures s != "" && !IsSeparator(s[0]) ==> ws != []
    ensures forall k :: 0 <= k < |ws| ==> ws[k] != ""
  {
    if s == "" then []
    else if IsSeparator(s[0]) then Words(s[1..])
    else if |s| > 1 && !IsSeparator(s[1]) then
      var ws := Words(s[1..]);
      [[s[0]] + ws[0]] + ws[1..]
    else [[s[0]]] + Words(s[1..])
  }

  function Join(ws: seq<string>): string {
    if ws == [] then "" else if |ws| == 1 then ws[0] else ws[0] + "-" + Join(ws[1..])
  }

  lemma {:induction false} NoWords(s: string)
    ensures Words(s) == [] <==> AllSeparators(s)
  {
    if s == "" {
    } else {
      NoWords(s[1..]);
      assert forall k :: 0 <= k < |s[1..]| ==> s[1..][k] == s[k + 1];
      assert AllSeparators(s) <==> IsSeparator(s[0]) && AllSeparators(s[1..]);
    }
  }

  lemma JoinCons(w: string, ws: seq<string>)
    ensures Join([w] + ws) == if ws == [] then w else w + "-" + Join(ws)
  {
    assert ([w] + ws)[1..] == ws;
  }

  lemma ConsGroups(c: char, w: string, rest: string)
    ensures [c] + w + "-" + rest == [c] + (w + "-" + rest)
  {
  }

  lemma JoinExtends(c: char, ws: seq<string>)
    requires ws != []
    ensures Join([[c] + ws[0]] + ws[1..]) == [c] + Join(ws)
  {
    var w, rest := ws[0], ws[1..];
    assert ws == [w] + rest;
    JoinCons([c] + w, rest);
    JoinCons(w, rest);
    if rest != [] { ConsGroups(c, w, Join(rest)); }
  }

  /** Dashing spaces and collapsing dashes, one character at a time. */
  function Dashes(s: string): string { Collapse(DashSpaces(s)) }

  lemma {:induction false} DashSpacesNonEmpty(s: string)
    requires s != ""
    ensures DashSpaces(s) != "" && DashSpaces(s)[0] == if JsSpace()(s[0]) then '-' else s[0]
  {
    if |s| <= 1 {
    } else {
      DashSpacesNonEmpty(s[1..]);
    }
  }

  lemma DashSpacesFirst(s: string)
    requires s != ""
    ensures DashSpaces(s) != "" && (DashSpaces(s)[0] == '-' <==> IsSeparator(s[0]))
  {
    DashSpacesNonEmpty(s);
  }

  lemma CollapseCons(c: char, d: string)
    ensures Collapse([c] + d) == if c == '-' && d != "" && d[0] == '-' then Collapse(d) else [c] + Collapse(d)
  {
    assert ([c] + d)[1..] == d;
  }

  lemma DashesStep(s: string)
    requires s != ""
    ensures !IsSeparator(s[0]) ==> Dashes(s) == [s[0]] + Dashes(s[1..])
    ensures IsSeparator(s[0]) ==>
              Dashes(s) == if |s| > 1 && IsSeparator(s[1]) then Dashes(s[1..]) else "-" + Dashes(s[1..])
  {
    if |s| > 1 { DashSpacesFirst(s[1..]); }
    CollapseCons(if JsSpace()(s[0]) then '-' else s[0], DashSpaces(s[1..]));
  }

  function Lead(s: string): string { if s != "" && IsSeparator(s[0]) then "-" else "" }
  function Trail(s: string): string { if Words(s) != [] && IsSeparator(s[|s| - 1]) then "-" else "" }

  lemma TrailRest(s: string)
    requires |s| > 1 && (Words(s) == []) == (Words(s[1..]) == [])
    ensures Trail(s) == Trail(s[1..])
  {
  }

  function Framed(lead: string, j: string, trail: string): string { lead + (j + trail) }

  lemma FrameGrows(c: char, j: string, trail: string)
    ensures "-" + Framed("", j, trail) == Framed("-", j, trail)
    ensures [c] + Framed("", j, trail) == Framed("", [c] + j, trail)
    ensures [c] + Framed("-", j, trail) == Framed("", [c] + "-" + j, trail)
  {
  }

  /** One character before nothing but separators. */
  lemma OnlyWord(s: string)
    requires |s| > 1 && !IsSeparator(s[0]) && IsSeparator(s[1]) && Words(s[1..]) == []
    ensures Lead(s) == "" && Join(Words(s)) == [s[0]] && Trail(s) == "-"
    ensures Framed(Lead(s[1..]), Join(Words(s[1..])), Trail(s[1..])) == "-"
  {
    NoWords(s[1..]);
    JoinCons([s[0]], []);
    assert IsSeparator(s[1..][|s| - 2]);
  }

  lemma WordFirst(s: string)
    requires s != "" && !IsSeparator(s[0])
    ensures [s[0]] + Framed(Lead(s[1..]), Join(Words(s[1..])), Trail(s[1..]))
            == Framed(Lead(s), Join(Words(s)), Trail(s))
  {
    var c, rest := s[0], s[1..];
    FrameGrows(c, Join(Words(rest)), Trail(rest));
    if rest == "" {
      JoinCons([c], []);
    } else if !IsSeparator(rest[0]) {
      JoinExtends(c, Words(rest));
      TrailRest(s);
    } else {
      JoinCons([c], Words(rest));
      if Words(rest) == [] { OnlyWord(s); } else { TrailRest(s); }
    }
  }

  lemma SeparatorFirst(s: string)
    requires s != "" && IsSeparator(s[0])
    ensures var inner := Framed(Lead(s[1..]), Join(Words(s[1..])), Trail(s[1..]));
            (if |s| > 1 && IsSeparator(s[1]) then inner else "-" + inner) == Framed(Lead(s), Join(Words(s)), Trail(s))
  {
    FrameGrows('-', Join(Words(s[1..])), Trail(s[1..]));
    if |s| > 1 { TrailRest(s); }
  }

  /** What is left before stripping: the joined words, and a dash where separators surround them. */
  lemma {:induction false} DashesAreWords(s: string)
    ensures Dashes(s) == Framed(Lead(s), Join(Words(s)), Trail(s))
  {
    if s == "" {
    } else {
      DashesStep(s);
      DashesAreWords(s[1..]);
      if !IsSeparator(s[0]) { WordFirst(s); } else { SeparatorFirst(s); }
    }
  }

  predicate NoDashes(w: string) { forall k :: 0 <= k < |w| ==> w[k] != '-' }

  lemma {:induction false} WordsHaveNoDash(s: string)
    ensures forall k :: 0 <= k < |Words(s)| ==> NoDashes(Words(s)[k])
  {
    if s == "" {
    } else {
      WordsHaveNoDash(s[1..]);
      var ws := Words(s[1..]);
      if !IsSeparator(s[0]) && |s| > 1 && !IsSeparator(s[1]) { assert NoDashes([s[0]] + ws[0]); }
    }
  }

  lemma {:induction false} JoinEnds(ws: seq<string>)
    requires ws != [] && forall k :: 0 <= k < |ws| ==> ws[k] != "" && NoDashes(ws[k])
    ensures var j := Join(ws); j != "" && j[0] != '-' && j[|j| - 1] != '-'
  {
    if |ws| <= 1 {
    } else {
      JoinEnds(ws[1..]);
      var j := Join(ws[1..]);
      assert (ws[0] + "-" + j)[|ws[0] + "-" + j| - 1] == j[|j| - 1];
      assert (ws[0] + "-" + j)[0] == ws[0][0];
    }
  }

  lemma StripAround(lead: string, j: string, trail: string)
    requires (lead == "" || lead == "-") && (trail == "" || trail == "-") && (j == "" ==> trail == "")
    requires j != "" ==> j[0] != '-' && j[|j| - 1] != '-'
    ensures StripDash(Framed(lead, j, trail)) == j
  {
    var s := Framed(lead, j, trail);
    var t := if s != "" && s[0] == '-' then s[1..] else s;
    assert t == j + trail;
  }

  lemma {:induction false} WordsAfterLead(a: string, s: string)
    requires AllSeparators(a)
    ensures Words(a + s) == Words(s)
  {
    if a == "" {
      assert a + s == s;
    } else {
      assert (a + s)[1..] == a[1..] + s;
      WordsAfterLead(a[1..], s);
    }
  }

  lemma {:induction false} WordsBeforeTrail(s: string, b: string)
    requires AllSeparators(b)
    ensures Words(s + b) == Words(s)
  {
    if s == "" {
      assert s + b == b;
      NoWords(b);
    } else {
      assert (s + b)[1..] == s[1..] + b;
      WordsBeforeTrail(s[1..], b);
      if |s| == 1 {
        assert s[1..] == "";
        NoWords(b);
      }
    }
  }

  lemma SpaceIsKept(a: string)
    requires AllSpace(JsSpace(), a)
    ensures Filter(Kept(), a) == a && AllSeparators(a)
  {
    FilterAllOrNone(Kept(), a);
  }

  lemma LeftTrimKeepsWords(s: string)
    ensures Words(Filter(Kept(), TrimLeft(JsSpace(), s))) == Words(Filter(Kept(), s))
  {
    var l := TrimLeft(JsSpace(), s);
    TrimLeftSplits(JsSpace(), s);
    var a := s[..|s| - |l|];
    SpaceIsKept(a);
    FilterConcat(Kept(), a, l);
    WordsAfterLead(a, Filter(Kept(), l));
  }

  lemma RightTrimKeepsWords(s: string)
    ensures Words(Filter(Kept(), TrimRight(JsSpace(), s))) == Words(Filter(Kept(), s))
  {
    var t := TrimRight(JsSpace(), s);
    TrimRightSplits(JsSpace(), s);
    var b := s[|t|..];
    SpaceIsKept(b);
    FilterConcat(Kept(), t, b);
    WordsBeforeTrail(Filter(Kept(), t), b);
  }

  /** Trimming and the backtick step are absorbed: they change no word. */
  lemma TrimKeepsWords(s: string)
    ensures Words(Filter(Kept(), Filter(NotBacktick(), Trim(JsSpace(), s)))) == Words(Filter(Kept(), s))
  {
    var l := TrimLeft(JsSpace(), s);
    var t := TrimRight(JsSpace(), l);
    FilterTwice(Kept(), NotBacktick(), Kept(), t);
    LeftTrimKeepsWords(s);
    RightTrimKeepsWords(l);
  }

  /** The whole chain: of the characters kept, the runs between separators, joined by dashes. */
  lemma NormalizeIsWords(lowered: string)
    ensures Normalize(lowered) == Join(Words(Filter(Kept(), lowered)))
  {
    var kept := Filter(Kept(), Filter(NotBacktick(), Trim(JsSpace(), lowered)));
    TrimKeepsWords(lowered);
    DashesAreWords(kept);
    WordsHaveNoDash(kept);
    if Words(kept) != [] { JoinEnds(Words(kept)); }
    StripAround(Lead(kept), Join(Words(kept)), Trail(kept));
  }

  // ---- What a base looks like ----------------------------------------------------------------

  predicate Plain(c: char) { 'a' <= c <= 'z' || '0' <= c <= '9' }
  predicate AllPlain(s: string) { forall k :: 0 <= k < |s| ==> Plain(s[k]) }

  /** Equal but for the case of ASCII letters. */
  predicate SameLetter(a: char, b: char) {
    || a == b
    || ('A' <= a <= 'Z' && b as int == a as int + 32)
    || ('A' <= b <= 'Z' && a as int == b as int + 32)
  }

  lemma {:induction false} LowerFolds(s: string, t: string)
    requires |s| == |t| && forall k :: 0 <= k < |s| ==> SameLetter(s[k], t[k])
    ensures Lower(s) == Lower(t)
  {
    if s == "" {
    } else {
      assert forall k :: 0 <= k < |s[1..]| ==> s[1..][k] == s[k + 1] && t[1..][k] == t[k + 1];
      assert SameLetter(s[0], t[0]);
      LowerFolds(s[1..], t[1..]);
    }
  }

  /** The case of letters does not matter. */
  lemma CaseIgnored(level: Level, s: string, t: string)
    requires |s| == |t| && forall k :: 0 <= k < |s| ==> SameLetter(s[k], t[k])
    ensures Base(level, s) == Base(level, t)
  {
    LowerFolds(s, t);
  }

  /** Every character of a base is a lower-case letter, a digit or a dash. */
  lemma BaseCharacters(level: Level, text: string)
    ensures forall k :: 0 <= k < |Base(level, text)| ==> Plain(Base(level, text)[k]) || Base(level, text)[k] == '-'
  {
    BaseNormalAndFixed(level, text);
  }

  lemma {:induction false} OneWord(a: string)
    requires a != "" && forall k :: 0 <= k < |a| ==> !IsSeparator(a[k])
    ensures Words(a) == [a]
  {
    if |a| == 1 {
      assert a == [a[0]] && Words(a[1..]) == [];
    } else {
      assert forall k :: 0 <= k < |a[1..]| ==> a[1..][k] == a[k + 1];
      OneWord(a[1..]);
      assert a == [a[0]] + a[1..];
    }
  }

  /** A run of other characters, then a separator: the run is the first word. */
  lemma {:induction false} WordThenSeparator(a: string, c: char, s: string)
    requires a != "" && (forall k :: 0 <= k < |a| ==> !IsSeparator(a[k])) && IsSeparator(c)
    ensures Words(a + ([c] + s)) == [a] + Words(s)
  {
    var t := a + ([c] + s);
    if |a| == 1 {
      assert t[1..] == [c] + s && ([c] + s)[1..] == s && a == [a[0]];
    } else {
      assert forall k :: 0 <= k < |a[1..]| ==> a[1..][k] == a[k + 1];
      WordThenSeparator(a[1..], c, s);
      assert t[1..] == a[1..] + ([c] + s);
      assert a == [a[0]] + a[1..];
    }
  }

  lemma PlainIsKept(a: string)
    requires AllPlain(a)
    ensures Filter(Kept(), a) == a && Lower(a) == a && forall k :: 0 <= k < |a| ==> !IsSeparator(a[k])
  {
    assert Dashed(a);
    LowerKeeps(a);
    DashedIsPlain(a);
    FilterAllOrNone(Kept(), a);
  }

  lemma {:induction false} LowerConcat(s: string, t: string)
    ensures Lower(s + t) == Lower(s) + Lower(t)
  {
    if s == "" {
      assert s + t == t;
    } else {
      assert (s + t)[1..] == s[1..] + t;
      LowerConcat(s[1..], t);
    }
  }

  lemma SeparatorKept(c: char)
    requires IsSeparator(c)
    ensures Lower([c]) == [c] && Filter(Kept(), [c]) == [c]
  {
    assert [c][1..] == "";
    FilterAtMostOne(Kept(), [c]);
  }

  /** A plain word is its own base, and of two words the base is joined by a dash, whatever separates them. */
  lemma WordsJoined(level: Level, a: string, c: char, b: string)
    requires a != "" && b != "" && AllPlain(a) && AllPlain(b)
    requires c == ' ' || c == '\t' || c == '\n' || c == '\r' || c == '\U{00A0}' || c == '-'
    ensures Base(level, a) == a
    ensures Base(level, a + ([c] + b)) == a + "-" + b
  {
    PlainIsKept(a);
    PlainIsKept(b);
    OneWord(a);
    OneWord(b);
    NormalizeIsWords(a);
    JoinCons(a, []);
    SeparatorKept(c);
    LowerConcat(a, [c] + b);
    LowerConcat([c], b);
    FilterConcat(Kept(), a, [c] + b);
    FilterConcat(Kept(), [c], b);
    WordThenSeparator(a, c, b);
    NormalizeIsWords(a + ([c] + b));
    JoinCons(a, [b]);
    JoinCons(b, []);
    assert [a] + [b] == [a, b];
  }

  lemma {:induction false} NoLetters(text: string)
    requires forall k :: 0 <= k < |text| ==> !Plain(text[k]) && !('A' <= text[k] <= 'Z')
    ensures Lower(text) == text && forall c :: c in text ==> !IsWord(c)
  {
    if text == "" {
    } else {
      assert text == [text[0]] + text[1..];
      assert forall k :: 0 <= k < |text[1..]| ==> text[1..][k] == text[k + 1];
      NoLetters(text[1..]);
    }
  }

  /** A text without letters and digits is named after its level. */
  lemma NamelessHeading(level: Level, text: string)
    requires forall k :: 0 <= k < |text| ==> !Plain(text[k]) && !('A' <= text[k] <= 'Z')
    ensures Base(level, text) == "h" + ["1234"[level - 1]]
  {
    var low := Lower(text);
    NoLetters(text);
    var kept := Filter(Kept(), low);
    forall k | 0 <= k < |kept| ensures IsSeparator(kept[k]) { FilterMember(Kept(), low, kept[k]); }
    NoWords(kept);
    NormalizeIsWords(low);
  }

  // ---- Unique ids ----------------------------------------------------------------------------

  function Suffixed(base: string, n: nat): string { base + "-" + Numeral(n) }

  lemma SuffixesDiffer(base: string, m: nat, n: nat)
    ensures Suffixed(base, m) == Suffixed(base, n) ==> m == n
    ensures Suffixed(base, m) != base
  {
    NumeralReadsBack(m);
    NumeralReadsBack(n);
    if Suffixed(base, m) == Suffixed(base, n) {
      assert Suffixed(base, m)[|base| + 1..] == Numeral(m);
      assert Suffixed(base, n)[|base| + 1..] == Numeral(n);
    }
    assert |Suffixed(base, m)| > |base|;
  }

  lemma SuffixText(base: string)
    ensures Suffixed(base, 1) == base + "-1" && Suffixed(base, 12) == base + "-12"
  {
    assert Numeral(12) == Numeral(1) + [Digit(2)];
  }

  ghost predicate LeastFree(base: string, taken: set<string>, n: nat) {
    && Suffixed(base, n) !in taken
    && forall k: nat :: 1 <= k < n ==> Suffixed(base, k) in taken
  }

  /** The id given to a heading: its base if free, else the base with the least free suffix. */
  ghost predicate IsSlug(base: string, taken: set<string>, id: string) {
    if base !in taken then id == base
    else exists n: nat :: 1 <= n && LeastFree(base, taken, n) && id == Suffixed(base, n)
  }

  /** Pigeonhole: `n` taken suffixes and the taken base are different ids. */
  lemma {:induction false} Pigeonhole(base: string, taken: set<string>, n: nat)
    requires base in taken && forall k: nat :: 1 <= k <= n ==> Suffixed(base, k) in taken
    ensures n < |taken|
  {
    if n == 0 {
    } else {
      var rest := taken - {Suffixed(base, n)};
      SuffixesDiffer(base, n, n);
      forall k: nat | 1 <= k <= n - 1 ensures Suffixed(base, k) in rest { SuffixesDiffer(base, k, n); }
      Pigeonhole(base, rest, n - 1);
      assert taken == rest + {Suffixed(base, n)};
    }
  }

  /** The set of ids handed out, mutated by every call. */
  class TakenIds {
    var ids: set<string>

    constructor ()
      ensures ids == {}
    {
      ids := {};
    }

    method SlugId(level: Level, text: string) returns (id: string, ghost tries: nat)
      modifies this
      ensures IsSlug(Base(level, text), old(ids), id)
      ensures id !in old(ids) && ids == old(ids) + {id}
      ensures tries <= |old(ids)|
    {
      var base := Base(level, text);
      tries := 0;
      if base !in ids {
        id := base;
        ids := ids + {base};
        return;
      }
      var n := 1;
      while Suffixed(base, n) in ids
        invariant ids == old(ids) && 1 <= n && forall k: nat :: 1 <= k < n ==> Suffixed(base, k) in ids
        decreases |ids| - n
      {
        Pigeonhole(base, ids, n);
        n := n + 1;
      }
      Pigeonhole(base, ids, n - 1);
      assert LeastFree(base, ids, n);
      tries := n;
      id := Suffixed(base, n);
      ids := ids + {id};
    }
  }

  datatype Heading = Heading(level: Level, text: string)

  function Ids(s: seq<string>): set<string> { set id | id in s }

  ghost predicate SlugAt(h: Heading, ids: seq<string>, k: nat)
    requires k < |ids|
  {
    IsSlug(Base(h.level, h.text), Ids(ids[..k]), ids[k])
  }

  /** Each id is the slug of its heading given the ids before it. */
  ghost predicate SlugsInOrder(headings: seq<Heading>, ids: seq<string>) {
    |ids| <= |headings| && forall k :: 0 <= k < |ids| ==> SlugAt(headings[k], ids, k)
  }

  lemma SlugsSnoc(headings: seq<Heading>, ids: seq<string>, id: string)
    requires SlugsInOrder(headings, ids) && |ids| < |headings|
    requires IsSlug(Base(headings[|ids|].level, headings[|ids|].text), Ids(ids), id)
    ensures SlugsInOrder(headings, ids + [id])
  {
    var ids' := ids + [id];
    forall k | 0 <= k < |ids'| ensures SlugAt(headings[k], ids', k) {
      if k < |ids| {
        assert ids'[..k] == ids[..k] && SlugAt(headings[k], ids, k);
      } else {
        assert ids'[..k] == ids;
      }
    }
  }

  lemma FreshId(ids: seq<string>, id: string)
    requires Distinct(ids) && id !in Ids(ids)
    ensures Distinct(ids + [id]) && Ids(ids + [id]) == Ids(ids) + {id}
  {
  }

  /** Over any headings, in order, all ids differ and each is the slug given those before it. */
  method SlugAll(headings: seq<Heading>) returns (ids: seq<string>)
    ensures |ids| == |headings| && Distinct(ids) && SlugsInOrder(headings, ids)
  {
    var taken := new TakenIds();
    ids := [];
    for k := 0 to |headings|
      invariant |ids| == k && Distinct(ids) && taken.ids == Ids(ids) && SlugsInOrder(headings, ids)
    {
      var id, _ := taken.SlugId(headings[k].level, headings[k].text);
      SlugsSnoc(headings, ids, id);
      FreshId(ids, id);
      ids := ids + [id];
    }
  }
}
