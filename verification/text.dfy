/** Decimal numerals and trimming. */
module Text {

  predicate IsDigit(c: char) { '0' <= c <= '9' }

  function Digit(n: nat): char
    requires n < 10
  {
    "0123456789"[n]
  }

  function Numeral(n: nat): string {
    if n < 10 then [Digit(n)] else Numeral(n / 10) + [Digit(n % 10)]
  }

  function DigitValue(c: char): nat {
    if IsDigit(c) then (c as int - '0' as int) as nat else 0
  }

  function Value(s: string): nat {
    if s == "" then 0 else 10 * Value(s[..|s| - 1]) + DigitValue(s[|s| - 1])
  }

  lemma DigitReadsBack(n: nat)
    requires n < 10
    ensures IsDigit(Digit(n)) && DigitValue(Digit(n)) == n
  {
  }

  lemma ValueSnoc(s: string, c: char)
    ensures Value(s + [c]) == 10 * Value(s) + DigitValue(c)
  {
    assert (s + [c])[..|s|] == s;
  }

  /** A numeral reads back as its number, so different numbers have different numerals. */
  lemma {:induction false} NumeralReadsBack(n: nat)
    ensures Value(Numeral(n)) == n && Numeral(n) != "" && forall k :: 0 <= k < |Numeral(n)| ==> IsDigit(Numeral(n)[k])
  {
    DigitReadsBack(n % 10);
    if n < 10 {
      ValueSnoc("", Digit(n));
      assert "" + [Digit(n)] == [Digit(n)];
    } else {
      NumeralReadsBack(n / 10);
      ValueSnoc(Numeral(n / 10), Digit(n % 10));
    }
  }

  predicate IsCommonSpace(c: char) {
    || c == ' ' || c == '\t' || c == '\n' || c == '\r' || c == '\U{000B}' || c == '\U{000C}' || c == '\U{00A0}'
    || c == '\U{1680}' || '\U{2000}' <= c <= '\U{200A}' || c == '\U{2028}' || c == '\U{2029}' || c == '\U{202F}'
    || c == '\U{205F}' || c == '\U{3000}'
  }

  /** The white space of JavaScript's `\s` and `trim`, and of Python's `\s` and `strip`. */
  function JsSpace(): char -> bool { (c: char) => IsCommonSpace(c) || c == '\U{FEFF}' }
  function PySpace(): char -> bool { (c: char) => IsCommonSpace(c) || '\U{001C}' <= c <= '\U{001F}' || c == '\U{0085}' }

  function TrimLeft(sp: char -> bool, s: string): string {
    if s != "" && sp(s[0]) then TrimLeft(sp, s[1..]) else s
  }
  function TrimRight(sp: char -> bool, s: string): string {
    if s != "" && sp(s[|s| - 1]) then TrimRight(sp, s[..|s| - 1]) else s
  }
  function Trim(sp: char -> bool, s: string): string { TrimRight(sp, TrimLeft(sp, s)) }

  ghost predicate Trimmed(sp: char -> bool, s: string) { s == "" || (!sp(s[0]) && !sp(s[|s| - 1])) }
  ghost predicate AllSpace(sp: char -> bool, s: string) { forall k :: 0 <= k < |s| ==> sp(s[k]) }

  lemma {:induction false} TrimLeftSpace(sp: char -> bool, a: string, s: string)
    requires AllSpace(sp, a)
    ensures TrimLeft(sp, a + s) == TrimLeft(sp, s)
  {
    if a == "" { assert a + s == s; } else { assert (a + s)[1..] == a[1..] + s; TrimLeftSpace(sp, a[1..], s); }
  }

  lemma {:induction false} TrimLeftUpTo(sp: char -> bool, s: string, t: string)
    requires t != "" && !sp(t[0])
    ensures TrimLeft(sp, s + t) == TrimLeft(sp, s) + t
  {
    if s == "" { assert s + t == t; } else { assert (s + t)[1..] == s[1..] + t; TrimLeftUpTo(sp, s[1..], t); }
  }

  lemma {:induction false} TrimRightSpace(sp: char -> bool, s: string, b: string)
    requires AllSpace(sp, b)
    ensures TrimRight(sp, s + b) == TrimRight(sp, s)
  {
    if b == "" {
      assert s + b == s;
    } else {
      assert (s + b)[..|s + b| - 1] == s + b[..|b| - 1];
      TrimRightSpace(sp, s, b[..|b| - 1]);
    }
  }

  /** Trimming removes exactly the surrounding space. */
  lemma TrimAround(sp: char -> bool, a: string, s: string, b: string)
    requires AllSpace(sp, a) && AllSpace(sp, b) && Trimmed(sp, s)
    ensures Trim(sp, a + s + b) == s
  {
    assert a + s + b == a + (s + b);
    TrimLeftSpace(sp, a, s + b);
    if s == "" {
      assert s + b == b + "";
      TrimLeftSpace(sp, b, "");
    } else {
      TrimRightSpace(sp, s, b);
    }
  }

  /** What is trimmed off is space. */
  lemma {:induction false} TrimLeftSplits(sp: char -> bool, s: string)
    ensures var t := TrimLeft(sp, s);
            |t| <= |s| && s == s[..|s| - |t|] + t && AllSpace(sp, s[..|s| - |t|]) && (t == "" || !sp(t[0]))
  {
    if s == "" || !sp(s[0]) {
    } else {
      TrimLeftSplits(sp, s[1..]);
      var t := TrimLeft(sp, s);
      assert s[..|s| - |t|] == [s[0]] + s[1..][..|s| - 1 - |t|];
    }
  }

  lemma {:induction false} TrimRightSplits(sp: char -> bool, s: string)
    ensures var t := TrimRight(sp, s);
            |t| <= |s| && s == t + s[|t|..] && AllSpace(sp, s[|t|..]) && (t == "" || !sp(t[|t| - 1]))
  {
    if s == "" || !sp(s[|s| - 1]) {
    } else {
      TrimRightSplits(sp, s[..|s| - 1]);
      var t := TrimRight(sp, s);
      assert s[|t|..] == s[..|s| - 1][|t|..] + [s[|s| - 1]];
    }
  }
}
