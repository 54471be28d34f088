/** The shortlist manifest: `_parse_manifest` of scripts/discovery_report.py. */
module Manifest {
  import opened Text

  datatype Item = Item(name: string, channels: string)

  const SHORTLIST := "shortlist"
  const TAG := "(channels:"

  function SkipDigits(s: string): string { if s != "" && IsDigit(s[0]) then SkipDigits(s[1..]) else s }
  function Strip(s: string): string { Trim(PySpace(), s) }
  function SkipSpace(s: string): string { TrimLeft(PySpace(), s) }

  predicate HasAt(s: string, k: nat, pattern: string) {
    k + |pattern| <= |s| && s[k..k + |pattern|] == pattern
  }

  predicate Contains(s: string, pattern: string) { exists k: nat :: k <= |s| && HasAt(s, k, pattern) }

  /** `re.sub(r"^\s*shortlist\s*=\s*\d+\s*:", "", s)` */
  function StripPrefix(s: string): string {
    var p := SkipSpace(s);
    if !HasAt(p, 0, SHORTLIST) then s else
      var q := SkipSpace(p[|SHORTLIST|..]);
      if q == "" || q[0] != '=' then s else
        var digits := SkipSpace(q[1..]);
        var r := SkipSpace(SkipDigits(digits));
        if digits == "" || !IsDigit(digits[0]) || r == "" || r[0] != ':' then s else r[1..]
  }

  function Split(s: string, sep: char): (parts: seq<string>)
    ensures parts != []
  {
    if s == "" then [""]
    else
      var rest := Split(s[1..], sep);
      if s[0] == sep then [""] + rest else [[s[0]] + rest[0]] + rest[1..]
  }

  /** `[c.strip() for c in parts if c.strip()]` */
  function StripAll(parts: seq<string>): seq<string> {
    if parts == [] then []
    else (if Strip(parts[0]) != "" then [Strip(parts[0])] else []) + StripAll(parts[1..])
  }

  predicate OneLine(s: string) { forall k :: 0 <= k < |s| ==> s[k] != '\n' }

  datatype Found = NoMatch | Match(name: string, channels: string)

  /** The pattern `^(.*?)\s*\(channels:\s*(.*?)\)\s*$` with its literal part at `k`. */
  function MatchAt(chunk: string, k: nat): Found {
    if !HasAt(chunk, k, TAG) then NoMatch else
      var name, rest := TrimRight(PySpace(), chunk[..k]), Strip(chunk[k + |TAG|..]);
      if OneLine(name) && rest != "" && rest[|rest| - 1] == ')' && OneLine(rest[..|rest| - 1])
      then Match(name, rest[..|rest| - 1]) else NoMatch
  }

  /** Lazy matching tries the literal's occurrences from left to right. */
  function FirstMatch(chunk: string, k: nat): (m: nat)
    requires k <= |chunk| + 1
    ensures k <= m <= |chunk| + 1 && (m <= |chunk| ==> MatchAt(chunk, m).Match?)
    ensures forall n: nat :: k <= n < m && n <= |chunk| ==> !MatchAt(chunk, n).Match?
    decreases |chunk| + 1 - k
  {
    if k > |chunk| || MatchAt(chunk, k).Match? then k else FirstMatch(chunk, k + 1)
  }

  function FindMatch(chunk: string): Found {
    var m := FirstMatch(chunk, 0);
    if m > |chunk| then NoMatch else MatchAt(chunk, m)
  }

  function ParseChunk(chunk: string): Item {
    match FindMatch(chunk)
    case Match(name, channels) => Item(Strip(name), Strip(channels))
    case NoMatch => Item(chunk, "")
  }

  function ParseChunks(chunks: seq<string>): seq<Item> {
    seq(|chunks|, k requires 0 <= k < |chunks| => ParseChunk(chunks[k]))
  }

  function ChunksOf(body: string): seq<string> {
    var chunks := StripAll(Split(body, '|'));
    if |chunks| <= 1 && !Contains(body, "(channels") then StripAll(Split(body, ',')) else chunks
  }

  function ParseManifest(manifest: string): seq<Item> {
    ParseChunks(ChunksOf(Strip(StripPrefix(manifest))))
  }

  method Parse(manifest: string) returns (items: seq<Item>)
    ensures items == ParseManifest(manifest)
  {
    var chunks := ChunksOf(Strip(StripPrefix(manifest)));
    items := [];
    for k := 0 to |chunks|
      invariant items == ParseChunks(chunks)[..k]
    {
      items := items + [ParseChunk(chunks[k])];
    }
    assert ParseChunks(chunks)[..|chunks|] == ParseChunks(chunks);
  }

  // ---- The matcher is the regular expression --------------------------------------------------

  /** A way to match the pattern, as the expression itself reads. */
  ghost predicate Reading(chunk: string, name: string, s1: string, s2: string, channels: string, s3: string) {
    && chunk == (name + s1) + TAG + (s2 + ((channels + ")") + s3))
    && '\n' !in name && '\n' !in channels
    && AllSpace(PySpace(), s1) && AllSpace(PySpace(), s2) && AllSpace(PySpace(), s3)
  }

  lemma CutAt(chunk: string, k: nat)
    requires HasAt(chunk, k, TAG)
    ensures chunk == chunk[..k] + TAG + chunk[k + |TAG|..]
  {
  }

  lemma Glue(chunk: string, head: string, tail: string, name: string, s1: string, s2: string, left: string,
             rest: string, channels: string, s3: string)
    requires chunk == head + TAG + tail && head == name + s1 && tail == s2 + left && left == rest + s3
    requires rest == channels + ")"
    ensures chunk == (name + s1) + TAG + (s2 + ((channels + ")") + s3))
  {
  }

  lemma RightSpace(s: string) returns (b: string)
    ensures s == TrimRight(PySpace(), s) + b && AllSpace(PySpace(), b)
  {
    TrimRightSplits(PySpace(), s);
    b := s[|TrimRight(PySpace(), s)|..];
  }

  lemma LeftSpace(s: string) returns (a: string)
    ensures s == a + TrimLeft(PySpace(), s) && AllSpace(PySpace(), a)
  {
    TrimLeftSplits(PySpace(), s);
    a := s[..|s| - |TrimLeft(PySpace(), s)|];
  }

  /** A match found is a reading of the expression. */
  lemma MatchIsReading(chunk: string, k: nat) returns (s1: string, s2: string, s3: string)
    requires MatchAt(chunk, k).Match?
    ensures Reading(chunk, MatchAt(chunk, k).name, s1, s2, MatchAt(chunk, k).channels, s3)
  {
    var sp, head, tail := PySpace(), chunk[..k], chunk[k + |TAG|..];
    var name, left, rest := TrimRight(sp, head), TrimLeft(sp, tail), Strip(tail);
    var channels := rest[..|rest| - 1];
    s1 := RightSpace(head);
    s2 := LeftSpace(tail);
    s3 := RightSpace(left);
    CutAt(chunk, k);
    Glue(chunk, head, tail, name, s1, s2, left, rest, channels, s3);
  }

  /** Before the literal, what is left of the name is a beginning of the name. */
  lemma NameBefore(name: string, s1: string)
    requires OneLine(name) && AllSpace(PySpace(), s1)
    ensures OneLine(TrimRight(PySpace(), name + s1)) && |TrimRight(PySpace(), name + s1)| <= |name|
  {
    TrimRightSpace(PySpace(), name, s1);
    TrimRightSplits(PySpace(), name);
    var t := TrimRight(PySpace(), name);
    assert forall k :: 0 <= k < |t| ==> t[k] == name[k];
  }

  lemma {:induction false} OneLineTail(sp: char -> bool, s: string)
    requires OneLine(s)
    ensures OneLine(TrimLeft(sp, s))
  {
    if s == "" {
    } else {
      assert forall k :: 0 <= k < |s[1..]| ==> s[1..][k] == s[k + 1];
      OneLineTail(sp, s[1..]);
    }
  }

  /** After the literal, a line and a closing parenthesis are left. */
  lemma ChannelsAfter(s2: string, channels: string, s3: string)
    requires OneLine(channels) && AllSpace(PySpace(), s2) && AllSpace(PySpace(), s3)
    ensures var rest := Strip(s2 + ((channels + ")") + s3));
            rest != "" && rest[|rest| - 1] == ')' && OneLine(rest[..|rest| - 1])
  {
    var sp, c := PySpace(), TrimLeft(PySpace(), channels);
    OneLineTail(sp, channels);
    assert (channels + ")") + s3 == channels + (")" + s3);
    TrimLeftSpace(sp, s2, channels + (")" + s3));
    TrimLeftUpTo(sp, channels, ")" + s3);
    assert c + (")" + s3) == (c + ")") + s3;
    TrimRightSpace(sp, c + ")", s3);
    assert (c + ")")[..|c|] == c;
  }

  /** Every reading is found at its literal. */
  lemma ReadingIsMatch(chunk: string, name: string, s1: string, s2: string, channels: string, s3: string)
    requires Reading(chunk, name, s1, s2, channels, s3)
    ensures |name| + |s1| <= |chunk| && MatchAt(chunk, |name| + |s1|).Match?
    ensures |MatchAt(chunk, |name| + |s1|).name| <= |name|
  {
    var k, tail := |name| + |s1|, s2 + ((channels + ")") + s3);
    assert chunk == (name + s1) + TAG + tail;
    assert chunk[k..k + |TAG|] == TAG && chunk[..k] == name + s1 && chunk[k + |TAG|..] == tail;
    NameBefore(name, s1);
    ChannelsAfter(s2, channels, s3);
  }

  lemma TrimStopsAfter(s: string, m: nat)
    requires m < |s| && !PySpace()(s[m])
    ensures |TrimRight(PySpace(), s)| > m
  {
    TrimRightSplits(PySpace(), s);
    var t := TrimRight(PySpace(), s);
    assert forall i :: |t| <= i < |s| ==> s[i] == s[|t|..][i - |t|];
  }

  /** An earlier literal has the shorter name before it: a literal does not begin with a space. */
  lemma ShorterName(chunk: string, m: nat, k: nat)
    requires m <= k && MatchAt(chunk, m).Match? && MatchAt(chunk, k).Match?
    ensures |MatchAt(chunk, m).name| <= |MatchAt(chunk, k).name|
  {
    if m < k {
      assert chunk[m..m + |TAG|][0] == chunk[m];
      TrimStopsAfter(chunk[..k], m);
      TrimRightSplits(PySpace(), chunk[..m]);
    }
  }

  lemma FoundIsReading(chunk: string)
    requires FindMatch(chunk).Match?
    ensures exists s1, s2, s3 :: Reading(chunk, FindMatch(chunk).name, s1, s2, FindMatch(chunk).channels, s3)
  {
    var s1, s2, s3 := MatchIsReading(chunk, FirstMatch(chunk, 0));
  }

  lemma FirstIsShortest(chunk: string, k: nat)
    requires k <= |chunk| && MatchAt(chunk, k).Match?
    ensures FindMatch(chunk).Match? && |FindMatch(chunk).name| <= |MatchAt(chunk, k).name|
  {
    ShorterName(chunk, FirstMatch(chunk, 0), k);
  }

  lemma ReadingIsFound(chunk: string, name: string, s1: string, s2: string, channels: string, s3: string)
    requires Reading(chunk, name, s1, s2, channels, s3)
    ensures FindMatch(chunk).Match? && |FindMatch(chunk).name| <= |name|
  {
    ReadingIsMatch(chunk, name, s1, s2, channels, s3);
    FirstIsShortest(chunk, |name| + |s1|);
  }

  /** The matcher finds something exactly when the expression has a reading, and what it finds is
      a reading with the shortest name. */
  lemma MatcherIsTheExpression(chunk: string)
    ensures FindMatch(chunk).Match? <==> exists n, s1, s2, c, s3 :: Reading(chunk, n, s1, s2, c, s3)
    ensures FindMatch(chunk).Match? ==>
              exists s1, s2, s3 :: Reading(chunk, FindMatch(chunk).name, s1, s2, FindMatch(chunk).channels, s3)
    ensures FindMatch(chunk).Match? ==>
              forall n, s1, s2, c, s3 :: Reading(chunk, n, s1, s2, c, s3) ==> |FindMatch(chunk).name| <= |n|
  {
    if FindMatch(chunk).Match? { FoundIsReading(chunk); }
    forall n, s1, s2, c, s3 | Reading(chunk, n, s1, s2, c, s3)
      ensures FindMatch(chunk).Match? && |FindMatch(chunk).name| <= |n|
    {
      ReadingIsFound(chunk, n, s1, s2, c, s3);
    }
  }

  lemma NoneFound(chunk: string)
    requires forall k: nat :: k <= |chunk| ==> !MatchAt(chunk, k).Match?
    ensures FindMatch(chunk) == NoMatch
  {
    assert FirstMatch(chunk, 0) > |chunk|;
  }

  /** A chunk that the expression does not match is a name without channels; any other gives the parts of
      its shortest reading, trimmed. */
  lemma ChunkMeaning(chunk: string)
    ensures if exists n, s1, s2, c, s3 :: Reading(chunk, n, s1, s2, c, s3) then
              exists n, s1, s2, c, s3 ::
                && Reading(chunk, n, s1, s2, c, s3) && ParseChunk(chunk) == Item(Strip(n), Strip(c))
                && forall n', t1, t2, c', t3 :: Reading(chunk, n', t1, t2, c', t3) ==> |n| <= |n'|
            else ParseChunk(chunk) == Item(chunk, "")
  {
    MatcherIsTheExpression(chunk);
    if FindMatch(chunk).Match? {
      var s1, s2, s3 :| Reading(chunk, FindMatch(chunk).name, s1, s2, FindMatch(chunk).channels, s3);
      assert ParseChunk(chunk) == Item(Strip(FindMatch(chunk).name), Strip(FindMatch(chunk).channels));
    }
  }

  // ---- Splitting what was joined -------------------------------------------------------------

  /** Texts joined by a separator with a space after it and possibly some before. */
  function Joined(texts: seq<string>, pad: string, sep: char): string {
    if texts == [] then ""
    else if |texts| == 1 then texts[0]
    else texts[0] + pad + [sep] + (" " + Joined(texts[1..], pad, sep))
  }

  ghost predicate Piece(t: string, sep: char) { t != "" && Trimmed(PySpace(), t) && sep !in t }

  lemma {:induction false} SplitAt(a: string, b: string, sep: char)
    requires sep !in a
    ensures Split(a + [sep] + b, sep) == [a] + Split(b, sep)
    ensures Split(a, sep) == [a]
  {
    if a == "" {
      assert a + [sep] + b == [sep] + b;
    } else {
      assert (a + [sep] + b)[1..] == a[1..] + [sep] + b;
      SplitAt(a[1..], b, sep);
      assert a == [a[0]] + a[1..];
    }
  }

  /** A piece with a text, spaced or not, becomes the chunk of that text. */
  lemma PieceIsChunk(lead: string, t: string, after: string, rest: seq<string>)
    requires AllSpace(PySpace(), lead) && AllSpace(PySpace(), after) && t != "" && Trimmed(PySpace(), t)
    ensures StripAll([lead + t + after] + rest) == [t] + StripAll(rest)
  {
    TrimAround(PySpace(), lead, t, after);
    assert ([lead + t + after] + rest)[1..] == rest;
  }

  lemma LastPiece(lead: string, t: string, sep: char)
    requires AllSpace(PySpace(), lead) && Trimmed(PySpace(), t) && sep !in lead + t
    ensures StripAll(Split(lead + t, sep)) == if t == "" then [] else [t]
  {
    SplitAt(lead + t, "", sep);
    TrimAround(PySpace(), lead, t, "");
    assert lead + t + "" == lead + t && [lead + t][1..] == [];
  }

  lemma NextPiece(lead: string, t: string, pad: string, sep: char, more: string)
    requires AllSpace(PySpace(), lead) && AllSpace(PySpace(), pad) && Piece(t, sep) && sep !in lead && sep !in pad
    ensures StripAll(Split(lead + (t + pad + [sep] + more), sep)) == [t] + StripAll(Split(more, sep))
  {
    assert lead + (t + pad + [sep] + more) == (lead + t + pad) + [sep] + more;
    SplitAt(lead + t + pad, more, sep);
    PieceIsChunk(lead, t, pad, Split(more, sep));
  }

  lemma {:induction false} JoinedSplits(lead: string, texts: seq<string>, pad: string, sep: char)
    requires forall t :: t in texts ==> Piece(t, sep)
    requires (lead == "" || lead == " ") && (pad == "" || pad == " ") && sep != ' '
    ensures StripAll(Split(lead + Joined(texts, pad, sep), sep)) == texts
    decreases |texts|
  {
    if texts == [] {
      LastPiece(lead, "", sep);
    } else {
      assert texts[0] in texts && texts == [texts[0]] + texts[1..];
      if |texts| == 1 {
        LastPiece(lead, texts[0], sep);
      } else {
        JoinedSplits(" ", texts[1..], pad, sep);
        NextPiece(lead, texts[0], pad, sep, " " + Joined(texts[1..], pad, sep));
      }
    }
  }

  lemma {:induction false} JoinedTrimmed(texts: seq<string>, pad: string, sep: char)
    requires forall t :: t in texts ==> Piece(t, sep)
    ensures Trimmed(PySpace(), Joined(texts, pad, sep)) && (texts != [] ==> Joined(texts, pad, sep) != "")
  {
    if texts == [] {
    } else {
      assert texts[0] in texts;
      if |texts| > 1 {
        JoinedTrimmed(texts[1..], pad, sep);
        var first, rest := texts[0] + pad + [sep] + " ", Joined(texts[1..], pad, sep);
        assert Joined(texts, pad, sep) == first + rest;
        assert (first + rest)[0] == texts[0][0] && (first + rest)[|first + rest| - 1] == rest[|rest| - 1];
      }
    }
  }

  lemma StripSpaceBefore(s: string)
    requires Trimmed(PySpace(), s)
    ensures Strip(" " + s) == s && Strip(s) == s
  {
    TrimAround(PySpace(), " ", s, "");
    TrimAround(PySpace(), "", s, "");
    assert " " + s + "" == " " + s && "" + s + "" == s;
  }

  // ---- The header ----------------------------------------------------------------------------

  function Header(n: nat): string { "shortlist" + "=" + Numeral(n) + ": " }

  lemma {:induction false} SkipDigitsAll(d: string, rest: string)
    requires forall k :: 0 <= k < |d| ==> IsDigit(d[k])
    requires rest == "" || !IsDigit(rest[0])
    ensures SkipDigits(d + rest) == rest
  {
    if d == "" {
      assert d + rest == rest;
    } else {
      assert (d + rest)[1..] == d[1..] + rest;
      SkipDigitsAll(d[1..], rest);
    }
  }

  lemma CutAfter(a: string, b: string)
    ensures HasAt(a + b, 0, a) && (a + b)[|a|..] == b
    ensures b != "" ==> a + b != ""
  {
  }

  /** A way to match the header's pattern, as the expression itself reads. */
  ghost predicate HeaderReading(s: string, s1: string, s2: string, s3: string, digits: string, s4: string,
                                body: string) {
    && s == s1 + ("shortlist" + (s2 + ("=" + (s3 + (digits + (s4 + (":" + body)))))))
    && AllSpace(PySpace(), s1) && AllSpace(PySpace(), s2) && AllSpace(PySpace(), s3) && AllSpace(PySpace(), s4)
    && digits != "" && forall k :: 0 <= k < |digits| ==> IsDigit(digits[k])
  }

  lemma SpaceBefore(a: string, b: string)
    requires AllSpace(PySpace(), a) && b != "" && !PySpace()(b[0])
    ensures SkipSpace(a + b) == b
  {
    TrimLeftSpace(PySpace(), a, b);
  }

  lemma SpaceIsNoDigit(c: char)
    requires PySpace()(c)
    ensures !IsDigit(c)
  {
  }

  lemma NoDigitFirst(a: string, tail: string)
    requires AllSpace(PySpace(), a) && tail != "" && !IsDigit(tail[0])
    ensures a + tail != "" && !IsDigit((a + tail)[0])
  {
    if a != "" {
      SpaceIsNoDigit(a[0]);
      assert (a + tail)[0] == a[0];
    } else {
      assert a + tail == tail;
    }
  }

  lemma DigitsBefore(digits: string, s4: string, tail: string)
    requires (forall k :: 0 <= k < |digits| ==> IsDigit(digits[k])) && AllSpace(PySpace(), s4)
    requires tail != "" && !IsDigit(tail[0]) && !PySpace()(tail[0])
    ensures SkipSpace(SkipDigits(digits + (s4 + tail))) == tail
  {
    NoDigitFirst(s4, tail);
    SkipDigitsAll(digits, s4 + tail);
    SpaceBefore(s4, tail);
  }

  lemma HeaderRead(s: string, s1: string, s2: string, s3: string, digits: string, s4: string, body: string)
    requires HeaderReading(s, s1, s2, s3, digits, s4, body)
    ensures StripPrefix(s) == body
  {
    var number := digits + (s4 + (":" + body));
    var equals := "=" + (s3 + number);
    var word := "shortlist" + (s2 + equals);
    assert number[0] == digits[0];
    SpaceBefore(s1, word);
    CutAfter("shortlist", s2 + equals);
    SpaceBefore(s2, equals);
    CutAfter("=", s3 + number);
    SpaceBefore(s3, number);
    DigitsBefore(digits, s4, ":" + body);
    CutAfter(":", body);
  }

  lemma SpaceSplit(s: string) returns (a: string)
    ensures s == a + SkipSpace(s) && AllSpace(PySpace(), a)
  {
    TrimLeftSplits(PySpace(), s);
    a := s[..|s| - |SkipSpace(s)|];
  }

  lemma {:induction false} DigitsSplit(s: string) returns (d: string)
    ensures s == d + SkipDigits(s) && forall k :: 0 <= k < |d| ==> IsDigit(d[k])
    ensures s != "" && IsDigit(s[0]) ==> d != ""
  {
    if s == "" || !IsDigit(s[0]) {
      d := "";
    } else {
      var rest := DigitsSplit(s[1..]);
      d := [s[0]] + rest;
      assert s == [s[0]] + s[1..];
    }
  }

  lemma StartsWith(s: string, a: string)
    requires HasAt(s, 0, a)
    ensures s == a + s[|a|..]
  {
  }

  /** What is cut off is a header. */
  lemma PrefixCut(s: string) returns (s1: string, s2: string, s3: string, digits: string, s4: string)
    requires StripPrefix(s) != s
    ensures HeaderReading(s, s1, s2, s3, digits, s4, StripPrefix(s))
  {
    var p := SkipSpace(s);
    var q := SkipSpace(p[|SHORTLIST|..]);
    var number := SkipSpace(q[1..]);
    var r := SkipSpace(SkipDigits(number));
    s1 := SpaceSplit(s);
    StartsWith(p, SHORTLIST);
    s2 := SpaceSplit(p[|SHORTLIST|..]);
    StartsWith(q, "=");
    s3 := SpaceSplit(q[1..]);
    digits := DigitsSplit(number);
    s4 := SpaceSplit(SkipDigits(number));
    StartsWith(r, ":");
  }

  /** The header is cut off exactly where its pattern matches. */
  lemma HeaderIff(s: string)
    ensures if exists s1, s2, s3, digits, s4, body :: HeaderReading(s, s1, s2, s3, digits, s4, body) then
              exists s1, s2, s3, digits, s4 :: HeaderReading(s, s1, s2, s3, digits, s4, StripPrefix(s))
            else StripPrefix(s) == s
  {
    if s1, s2, s3, digits, s4, body :| HeaderReading(s, s1, s2, s3, digits, s4, body) {
      HeaderRead(s, s1, s2, s3, digits, s4, body);
    } else if StripPrefix(s) != s {
      var s1, s2, s3, digits, s4 := PrefixCut(s);
    }
  }

  lemma PrefixStripped(n: nat, body: string)
    ensures StripPrefix(Header(n) + body) == " " + body
  {
    NumeralReadsBack(n);
    assert Header(n) + body ==
           "" + ("shortlist" + ("" + ("=" + ("" + (Numeral(n) + ("" + (":" + (" " + body))))))));
    HeaderRead(Header(n) + body, "", "", "", Numeral(n), "", " " + body);
  }

  /** The header changes nothing, whatever number it gives; it may be missing where the body does not look
      like one. */
  lemma HeaderIgnored(n: nat, body: string)
    ensures ParseManifest(Header(n) + body) == ParseChunks(ChunksOf(Strip(body)))
    ensures !HasAt(SkipSpace(body), 0, "shortlist") ==> ParseManifest(body) == ParseManifest(Header(n) + body)
  {
    PrefixStripped(n, body);
    TrimLeftSpace(PySpace(), " ", body);
  }

  // ---- Bars ----------------------------------------------------------------------------------

  lemma BarChunks(texts: seq<string>)
    requires forall t :: t in texts ==> Piece(t, '|')
    requires |texts| > 1 || Contains(Joined(texts, " ", '|'), "(channels")
    ensures ChunksOf(Joined(texts, " ", '|')) == texts
  {
    JoinedSplits("", texts, " ", '|');
    assert "" + Joined(texts, " ", '|') == Joined(texts, " ", '|');
  }

  /** Two or more texts between bars, or one with channels, are the chunks. */
  lemma BarsSplit(n: nat, texts: seq<string>)
    requires forall t :: t in texts ==> Piece(t, '|')
    requires |texts| > 1 || Contains(Joined(texts, " ", '|'), "(channels")
    ensures ParseManifest(Header(n) + Joined(texts, " ", '|')) == ParseChunks(texts)
  {
    HeaderIgnored(n, Joined(texts, " ", '|'));
    JoinedTrimmed(texts, " ", '|');
    StripSpaceBefore(Joined(texts, " ", '|'));
    BarChunks(texts);
  }

  function ItemText(item: Item): string { item.name + " " + "(channels:" + " " + item.channels + ")" }

  function Texts(items: seq<Item>): seq<string> {
    seq(|items|, k requires 0 <= k < |items| => ItemText(items[k]))
  }

  function ManifestText(items: seq<Item>): string { Header(|items|) + Joined(Texts(items), " ", '|') }

  ghost predicate Writable(item: Item) {
    && item.name != "" && Trimmed(PySpace(), item.name) && OneLine(item.name) && '|' !in item.name
    && !Contains(item.name, TAG)
    && Trimmed(PySpace(), item.channels) && OneLine(item.channels) && '|' !in item.channels
  }

  lemma ItemTextTrimmed(item: Item)
    requires Writable(item)
    ensures Piece(ItemText(item), '|') && Contains(ItemText(item), "(channels")
  {
    var t := ItemText(item);
    assert t[0] == item.name[0];
    assert t[|item.name| + 1..|item.name| + 1 + |"(channels"|] == "(channels";
    assert HasAt(t, |item.name| + 1, "(channels");
  }

  /** The pieces of an item's text around its literal part. */
  lemma ItemTextCut(item: Item)
    ensures var t, k := ItemText(item), |item.name| + 1;
            && HasAt(t, k, TAG) && t[..k] == item.name + " "
            && t[k + |TAG|..] == " " + (item.channels + ")")
  {
    var t := ItemText(item);
    assert t == (item.name + " ") + TAG + (" " + (item.channels + ")"));
  }

  lemma ItemMatches(item: Item)
    requires Writable(item)
    ensures MatchAt(ItemText(item), |item.name| + 1) == Match(item.name, item.channels)
  {
    var channels := item.channels;
    ItemTextCut(item);
    TrimRightSpace(PySpace(), item.name, " ");
    assert (channels + ")")[0] == if channels == "" then ')' else channels[0];
    StripSpaceBefore(channels + ")");
    assert (channels + ")")[..|channels|] == channels;
  }

  lemma FirstIs(chunk: string, k: nat)
    requires k <= |chunk| && MatchAt(chunk, k).Match?
    requires forall n: nat :: n < k ==> !MatchAt(chunk, n).Match?
    ensures FindMatch(chunk) == MatchAt(chunk, k)
  {
    var m := FirstMatch(chunk, 0);
    assert m == k;
  }

  lemma NoEarlierTag(item: Item, n: nat)
    requires Writable(item) && n <= |item.name|
    ensures !HasAt(ItemText(item), n, TAG)
  {
    var t := ItemText(item);
    if n + |TAG| <= |item.name| {
      assert item.name[n..n + |TAG|] == t[n..n + |TAG|];
      assert !HasAt(item.name, n, TAG);
    } else {
      var i := |item.name| - n;
      assert t[n + i] == ' ' && TAG[i] != ' ';
      if n + |TAG| <= |t| { assert t[n..n + |TAG|][i] == t[n + i]; }
    }
  }

  lemma ItemTextParses(item: Item)
    requires Writable(item)
    ensures ParseChunk(ItemText(item)) == item
  {
    ItemMatches(item);
    ItemTextCut(item);
    forall n: nat | n <= |item.name| ensures !MatchAt(ItemText(item), n).Match? { NoEarlierTag(item, n); }
    FirstIs(ItemText(item), |item.name| + 1);
    StripSpaceBefore(item.name);
    StripSpaceBefore(item.channels);
  }

  lemma TextsParse(items: seq<Item>)
    requires forall i :: i in items ==> Writable(i)
    ensures ParseChunks(Texts(items)) == items
  {
    forall k | 0 <= k < |items| ensures ParseChunk(Texts(items)[k]) == items[k] {
      assert items[k] in items;
      ItemTextParses(items[k]);
    }
  }

  lemma NothingParsed(n: nat)
    ensures ParseManifest(Header(n)) == []
  {
    HeaderIgnored(n, "");
    assert Header(n) + "" == Header(n);
    LastPiece("", "", '|');
    LastPiece("", "", ',');
    assert "" + "" == "";
  }

  /** Writing any items in the documented format and parsing gives the same items back. */
  lemma ManifestRoundTrip(items: seq<Item>)
    requires forall i :: i in items ==> Writable(i)
    ensures ParseManifest(ManifestText(items)) == items
  {
    var texts := Texts(items);
    if items == [] {
      NothingParsed(0);
      assert Header(0) + "" == Header(0);
    } else {
      forall t | t in texts ensures Piece(t, '|') && Contains(t, "(channels") {
        var k :| 0 <= k < |texts| && texts[k] == t;
        assert items[k] in items;
        ItemTextTrimmed(items[k]);
      }
      assert |texts| == 1 ==> texts[0] in texts;
      BarsSplit(|items|, texts);
      TextsParse(items);
    }
  }

  // ---- Commas --------------------------------------------------------------------------------

  lemma NotAcross(a: string, b: string, pattern: string)
    requires pattern != "" && ',' !in pattern && ' ' !in pattern && !Contains(a, pattern) && !Contains(b, pattern)
    ensures !Contains(a + ", " + b, pattern)
  {
    var t, n := a + ", " + b, |pattern|;
    forall k: nat | k <= |t| ensures !HasAt(t, k, pattern) {
      if k + n <= |a| {
        assert a[k..k + n] == t[k..k + n] && !HasAt(a, k, pattern);
      } else if k + n <= |t| {
        if k >= |a| + 2 {
          assert b[k - |a| - 2..k - |a| - 2 + n] == t[k..k + n] && !HasAt(b, k - |a| - 2, pattern);
        } else {
          var at := if k <= |a| then |a| else |a| + 1;
          assert t[k..k + n][at - k] == t[at] && t[at] !in pattern;
        }
      }
    }
  }

  /** A pattern without comma and space that occurs in joined texts occurs in one of them. */
  lemma {:induction false} JoinedContains(texts: seq<string>, pattern: string)
    requires pattern != "" && ',' !in pattern && ' ' !in pattern
    requires forall t :: t in texts ==> !Contains(t, pattern)
    ensures !Contains(Joined(texts, "", ','), pattern)
  {
    if |texts| <= 1 {
      assert |texts| == 1 ==> texts[0] in texts;
    } else {
      JoinedContains(texts[1..], pattern);
      assert texts[0] in texts;
      var a, b := texts[0], Joined(texts[1..], "", ',');
      assert Joined(texts, "", ',') == a + ", " + b;
      NotAcross(a, b, pattern);
    }
  }

  /** A name as the comma-separated format can hold it. */
  ghost predicate ListedName(name: string) {
    Piece(name, ',') && '|' !in name && !Contains(name, "(channels")
  }

  lemma TagBegins(s: string, k: nat)
    requires HasAt(s, k, TAG)
    ensures HasAt(s, k, "(channels")
  {
    assert s[k..k + |TAG|][..9] == s[k..k + 9] && TAG[..9] == "(channels";
  }

  lemma NameParses(name: string)
    requires ListedName(name)
    ensures ParseChunk(name) == Item(name, "")
  {
    forall k: nat | k <= |name| ensures !MatchAt(name, k).Match? {
      if HasAt(name, k, TAG) { TagBegins(name, k); }
    }
    NoneFound(name);
  }

  lemma {:induction false} JoinedWithout(texts: seq<string>, c: char)
    requires (forall t :: t in texts ==> c !in t) && c != ',' && c != ' '
    ensures c !in Joined(texts, "", ',')
  {
    if |texts| <= 1 {
      assert |texts| == 1 ==> texts[0] in texts;
    } else {
      assert texts[0] in texts;
      JoinedWithout(texts[1..], c);
    }
  }

  lemma NoBars(names: seq<string>)
    requires forall name :: name in names ==> ListedName(name)
    ensures |StripAll(Split(Joined(names, "", ','), '|'))| <= 1
  {
    JoinedTrimmed(names, "", ',');
    JoinedWithout(names, '|');
    assert "" + Joined(names, "", ',') == Joined(names, "", ',');
    LastPiece("", Joined(names, "", ','), '|');
  }

  lemma CommaChunks(names: seq<string>)
    requires forall name :: name in names ==> ListedName(name)
    ensures ChunksOf(Joined(names, "", ',')) == names
  {
    NoBars(names);
    JoinedContains(names, "(channels");
    JoinedSplits("", names, "", ',');
    assert "" + Joined(names, "", ',') == Joined(names, "", ',');
  }

  lemma NamesParse(names: seq<string>)
    requires forall name :: name in names ==> ListedName(name)
    ensures ParseChunks(names) == seq(|names|, k requires 0 <= k < |names| => Item(names[k], ""))
  {
    forall k | 0 <= k < |names| ensures ParseChunk(names[k]) == Item(names[k], "") {
      assert names[k] in names;
      NameParses(names[k]);
    }
  }

  /** Names joined by commas come back as items without channels. */
  lemma CommaRoundTrip(n: nat, names: seq<string>)
    requires forall name :: name in names ==> ListedName(name)
    ensures ParseManifest(Header(n) + Joined(names, "", ',')) ==
            seq(|names|, k requires 0 <= k < |names| => Item(names[k], ""))
  {
    HeaderIgnored(n, Joined(names, "", ','));
    JoinedTrimmed(names, "", ',');
    StripSpaceBefore(Joined(names, "", ','));
    CommaChunks(names);
    NamesParse(names);
  }
}
