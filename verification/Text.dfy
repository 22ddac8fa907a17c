/** Strings as the renderer and the parser treat them: lines, trimming, splitting, decimal numbers. */
module Text {
  import opened Outcomes
  import Chars

  // -------------------------------------------------------------------
  // Lengths in bytes
  // -------------------------------------------------------------------

  function Utf8Width(c: char): nat {
    var n := c as int;
    if n < 0x80 then 1 else if n < 0x800 then 2 else if n < 0x1_0000 then 3 else 4
  }

  function Utf8Len(s: string): nat {
    if |s| == 0 then 0 else Utf8Len(s[..|s| - 1]) + Utf8Width(s[|s| - 1])
  }

  // -------------------------------------------------------------------
  // Trimming
  // -------------------------------------------------------------------

  function TrimStart(s: string, p: char -> bool): string {
    if |s| > 0 && p(s[0]) then TrimStart(s[1..], p) else s
  }

  function TrimEnd(s: string, p: char -> bool): string {
    if |s| > 0 && p(s[|s| - 1]) then TrimEnd(s[..|s| - 1], p) else s
  }

  function Trim(s: string, p: char -> bool): string {
    TrimEnd(TrimStart(s, p), p)
  }

  /** Nothing to trim at either end. */
  predicate Tight(s: string) {
    |s| == 0 || (!Chars.IsWhitespace(s[0]) && !Chars.IsWhitespace(s[|s| - 1]))
  }

  /** Printable text without blanks: what keys, addresses, numbers and endpoints are made of. */
  predicate Plain(s: string) {
    |s| > 0 && forall i :: 0 <= i < |s| ==> !Chars.IsWhitespace(s[i]) && !Chars.IsControl(s[i])
  }

  function TrimBlanks(s: string): string {
    Trim(s, c => Chars.IsWhitespace(c))
  }

  /** What the parser does to each line: spaces off both ends, then tabs. */
  function TrimLine(s: string): string {
    Trim(Trim(s, c => c == ' '), c => c == '\t')
  }

  lemma TrimTight(s: string)
    requires Tight(s)
    ensures TrimBlanks(s) == s && TrimLine(s) == s
    ensures TrimEnd(s, c => Chars.IsWhitespace(c)) == s
  {
  }

  lemma TrimLeadingSpace(s: string)
    requires |s| > 0 && Tight(s)
    ensures TrimBlanks(" " + s) == s
  {
    assert (" " + s)[1..] == s;
    TrimTight(s);
  }

  lemma TrimTrailingSpace(s: string)
    requires |s| > 0 && Tight(s)
    ensures TrimBlanks(s + " ") == s
  {
    assert (s + " ")[..|s|] == s;
    TrimTight(s);
  }

  // -------------------------------------------------------------------
  // Splitting
  // -------------------------------------------------------------------

  /** The pieces of `s` between occurrences of `c`; always at least one. */
  function Split(s: string, c: char): (pieces: seq<string>)
    ensures |pieces| >= 1
  {
    if |s| == 0 then [""]
    else
      var rest := Split(s[1..], c);
      if s[0] == c then [""] + rest else [[s[0]] + rest[0]] + rest[1..]
  }

  predicate Lacks(s: string, c: char) {
    forall i :: 0 <= i < |s| ==> s[i] != c
  }

  lemma {:induction false} SplitFirst(piece: string, c: char, rest: string)
    requires Lacks(piece, c)
    ensures Split(piece + [c] + rest, c) == [piece] + Split(rest, c)
  {
    if |piece| == 0 {
      assert piece + [c] + rest == [c] + rest;
      assert ([c] + rest)[1..] == rest;
    } else {
      var s := piece + [c] + rest;
      assert s[1..] == piece[1..] + [c] + rest;
      SplitFirst(piece[1..], c, rest);
      assert [s[0]] + piece[1..] == piece;
    }
  }

  lemma {:induction false} SplitWhole(piece: string, c: char)
    requires Lacks(piece, c)
    ensures Split(piece, c) == [piece]
  {
    if |piece| > 0 {
      SplitWhole(piece[1..], c);
      assert [piece[0]] + piece[1..] == piece;
    }
  }

  /** Lines, each ended by a newline. */
  function Unlines(lines: seq<string>): string {
    if |lines| == 0 then "" else lines[0] + ['\n'] + Unlines(lines[1..])
  }

  lemma {:induction false} UnlinesAppend(a: seq<string>, b: seq<string>)
    ensures Unlines(a + b) == Unlines(a) + Unlines(b)
  {
    if |a| == 0 {
      assert a + b == b;
    } else {
      assert (a + b)[1..] == a[1..] + b;
      UnlinesAppend(a[1..], b);
    }
  }

  lemma UnlinesOne(line: string)
    ensures Unlines([line]) == line + "\n"
  {
    assert [line][1..] == [];
    assert Unlines([]) == "";
  }

  /** Splitting the text at newlines gives back the lines, and the empty piece after the last one. */
  lemma {:induction false} SplitUnlines(lines: seq<string>)
    requires forall i :: 0 <= i < |lines| ==> Lacks(lines[i], '\n')
    ensures Split(Unlines(lines), '\n') == lines + [""]
  {
    if |lines| > 0 {
      SplitUnlines(lines[1..]);
      SplitFirst(lines[0], '\n', Unlines(lines[1..]));
    }
  }

  lemma {:induction false} UnlinesLacks(lines: seq<string>, c: char)
    requires c != '\n' && forall i :: 0 <= i < |lines| ==> Lacks(lines[i], c)
    ensures Lacks(Unlines(lines), c)
  {
    if |lines| > 0 {
      UnlinesLacks(lines[1..], c);
    }
  }

  /** Items separated by ", ". */
  function CommaList(items: seq<string>): string {
    if |items| == 0 then ""
    else if |items| == 1 then items[0]
    else items[0] + ", " + CommaList(items[1..])
  }

  /** Split at the first occurrence of `c`. */
  function SplitOnce(s: string, c: char): Option<(string, string)> {
    if |s| == 0 then None
    else if s[0] == c then Some(("", s[1..]))
    else match SplitOnce(s[1..], c)
      case None => None
      case Some((a, b)) => Some(([s[0]] + a, b))
  }

  /** Split at the last occurrence of `c`. */
  function SplitLast(s: string, c: char): Option<(string, string)> {
    if |s| == 0 then None
    else if s[|s| - 1] == c then Some((s[..|s| - 1], ""))
    else match SplitLast(s[..|s| - 1], c)
      case None => None
      case Some((a, b)) => Some((a, b + [s[|s| - 1]]))
  }

  lemma {:induction false} SplitOnceAt(a: string, c: char, b: string)
    requires Lacks(a, c)
    ensures SplitOnce(a + [c] + b, c) == Some((a, b))
  {
    var s := a + [c] + b;
    if |a| == 0 {
      assert s[1..] == b;
    } else {
      assert s[1..] == a[1..] + [c] + b;
      SplitOnceAt(a[1..], c, b);
      assert [a[0]] + a[1..] == a;
    }
  }

  lemma {:induction false} SplitLastParts(s: string, c: char)
    ensures SplitLast(s, c).Some? ==>
              s == SplitLast(s, c).value.0 + [c] + SplitLast(s, c).value.1 && Lacks(SplitLast(s, c).value.1, c)
  {
    if |s| > 0 && s[|s| - 1] != c {
      SplitLastParts(s[..|s| - 1], c);
    }
  }

  lemma {:induction false} SplitLastAt(a: string, c: char, b: string)
    requires Lacks(b, c)
    ensures SplitLast(a + [c] + b, c) == Some((a, b))
  {
    var s := a + [c] + b;
    if |b| == 0 {
      assert s[..|s| - 1] == a;
    } else {
      assert s[..|s| - 1] == a + [c] + b[..|b| - 1];
      SplitLastAt(a, c, b[..|b| - 1]);
      assert b[..|b| - 1] + [s[|s| - 1]] == b;
    }
  }

  lemma {:induction false} SplitOnceParts(s: string, c: char)
    ensures SplitOnce(s, c).Some? ==>
              s == SplitOnce(s, c).value.0 + [c] + SplitOnce(s, c).value.1 && Lacks(SplitOnce(s, c).value.0, c)
  {
    if |s| > 0 && s[0] != c {
      SplitOnceParts(s[1..], c);
    }
  }

  // -------------------------------------------------------------------
  // Decimal numbers
  // -------------------------------------------------------------------

  predicate IsDecimal(c: char) {
    '0' <= c <= '9'
  }

  predicate AllDecimal(s: string) {
    forall i :: 0 <= i < |s| ==> IsDecimal(s[i])
  }

  function DigitChar(d: nat): (c: char)
    requires d < 10
    ensures IsDecimal(c) && c as int - '0' as int == d
  {
    ('0' as int + d) as char
  }

  function PrintNat(n: nat): string {
    if n < 10 then [DigitChar(n)] else PrintNat(n / 10) + [DigitChar(n % 10)]
  }

  /** The value of a string of digits. */
  function Decimal(s: string): nat
    requires AllDecimal(s)
  {
    if |s| == 0 then 0 else Decimal(s[..|s| - 1]) * 10 + (s[|s| - 1] as int - '0' as int)
  }

  lemma {:induction false} PrintedNat(n: nat)
    ensures |PrintNat(n)| >= 1 && AllDecimal(PrintNat(n)) && Decimal(PrintNat(n)) == n
  {
    var s := PrintNat(n);
    if n < 10 {
      assert s[..0] == "";
    } else {
      PrintedNat(n / 10);
      assert s[..|s| - 1] == PrintNat(n / 10);
      assert forall i :: 0 <= i < |s| - 1 ==> s[i] == PrintNat(n / 10)[i];
    }
  }

  /** Small numbers have few digits. */
  lemma PrintedLength(n: nat)
    ensures n < 100 ==> |PrintNat(n)| <= 2
    ensures n < 1000 ==> |PrintNat(n)| <= 3
  {
    if 100 <= n < 1000 {
      assert n / 10 < 100 && n / 10 / 10 < 10;
      assert |PrintNat(n / 10 / 10)| == 1;
      assert |PrintNat(n / 10)| == 2;
    } else if 10 <= n < 100 {
      assert |PrintNat(n / 10)| == 1;
    }
  }

  lemma DecimalIsPlain(s: string)
    requires AllDecimal(s) && |s| > 0
    ensures Plain(s)
  {
  }

  /** The standard unsigned 16-bit number parser: an optional plus sign, then digits, no overflow. */
  function ParseU16(s: string): (r: Option<nat>)
    ensures r.Some? ==> r.value < 0x1_0000
  {
    var digits := if |s| > 1 && s[0] == '+' then s[1..] else s;
    if |digits| == 0 || !AllDecimal(digits) || Decimal(digits) >= 0x1_0000 then None
    else Some(Decimal(digits))
  }

  lemma ParsePrintedU16(n: nat)
    requires n < 0x1_0000
    ensures ParseU16(PrintNat(n)) == Some(n) && Plain(PrintNat(n))
  {
    PrintedNat(n);
    DecimalIsPlain(PrintNat(n));
  }

  lemma ParsedU16Chars(s: string)
    requires ParseU16(s).Some?
    ensures Plain(s)
  {
    var digits := if |s| > 1 && s[0] == '+' then s[1..] else s;
    assert forall i :: 0 <= i < |s| ==> s[i] == '+' || IsDecimal(s[i]) by {
      forall i | 0 <= i < |s| ensures s[i] == '+' || IsDecimal(s[i]) {
        if |s| > 1 && s[0] == '+' {
          if i > 0 { assert digits[i - 1] == s[i]; }
        } else {
          assert digits[i] == s[i];
        }
      }
    }
  }

  /** Exactly the decimal numbers below 65536, with or without a plus sign. */
  lemma U16Exactly(s: string, n: nat)
    ensures ParseU16(s) == Some(n) <==>
              n < 65536 && exists digits :: |digits| > 0 && AllDecimal(digits) && Decimal(digits) == n
                                            && (s == digits || s == "+" + digits)
  {
    if |s| > 1 && s[0] == '+' {
      assert s == "+" + s[1..];
    }
    if digits :| |digits| > 0 && AllDecimal(digits) && Decimal(digits) == n && (s == digits || s == "+" + digits) {
      assert digits[0] != '+' && IsDecimal(digits[0]);
      assert s == "+" + digits ==> s[1..] == digits;
    }
  }

  /** Section 3 of RFC 3629: one to four bytes hold 7, 11, 16 and 21 bits. */
  lemma WidthIsExact(c: char)
    ensures 1 <= Utf8Width(c) <= 4
    ensures Utf8Width(c) == 1 <==> c as int < 128
    ensures Utf8Width(c) <= 2 <==> c as int < 2048
    ensures Utf8Width(c) <= 3 <==> c as int < 65536
  {
  }

  lemma {:induction false} Utf8LenJoins(s: string, t: string)
    ensures Utf8Len(s + t) == Utf8Len(s) + Utf8Len(t)
  {
    if |t| > 0 {
      Utf8LenJoins(s, t[..|t| - 1]);
      assert (s + t)[..|s + t| - 1] == s + t[..|t| - 1];
    } else {
      assert s + t == s;
    }
  }

  predicate AllAre(s: string, p: char -> bool) {
    forall i :: 0 <= i < |s| ==> p(s[i])
  }

  /** `t` is what is left of `s` when every character of the kind is taken off both ends. */
  ghost predicate IsTrimmed(s: string, p: char -> bool, t: string) {
    && (exists a, b :: AllAre(a, p) && AllAre(b, p) && s == a + t + b)
    && (|t| > 0 ==> !p(t[0]) && !p(t[|t| - 1]))
  }

  lemma {:induction false} TrimStartSkips(a: string, t: string, p: char -> bool)
    requires AllAre(a, p) && (|t| > 0 ==> !p(t[0]))
    ensures TrimStart(a + t, p) == t
  {
    if |a| > 0 {
      assert (a + t)[1..] == a[1..] + t;
      TrimStartSkips(a[1..], t, p);
    } else {
      assert a + t == t;
    }
  }

  lemma {:induction false} TrimEndSkips(t: string, b: string, p: char -> bool)
    requires AllAre(b, p) && (|t| > 0 ==> !p(t[|t| - 1]))
    ensures TrimEnd(t + b, p) == t
  {
    if |b| > 0 {
      assert (t + b)[..|t + b| - 1] == t + b[..|b| - 1];
      TrimEndSkips(t, b[..|b| - 1], p);
    } else {
      assert t + b == t;
    }
  }

  lemma {:induction false} TrimStartParts(s: string, p: char -> bool) returns (a: string)
    ensures AllAre(a, p) && s == a + TrimStart(s, p) && (|TrimStart(s, p)| > 0 ==> !p(TrimStart(s, p)[0]))
  {
    if |s| > 0 && p(s[0]) {
      a := TrimStartParts(s[1..], p);
      a := [s[0]] + a;
    } else {
      a := "";
    }
  }

  lemma {:induction false} TrimEndParts(s: string, p: char -> bool) returns (b: string)
    ensures AllAre(b, p) && s == TrimEnd(s, p) + b
    ensures |TrimEnd(s, p)| > 0 ==> !p(TrimEnd(s, p)[|TrimEnd(s, p)| - 1]) && TrimEnd(s, p)[0] == s[0]
  {
    if |s| > 0 && p(s[|s| - 1]) {
      b := TrimEndParts(s[..|s| - 1], p);
      b := b + [s[|s| - 1]];
    } else {
      b := "";
    }
  }

  /** Trimming takes exactly the characters of the kind off both ends. */
  lemma TrimExactly(s: string, p: char -> bool, t: string)
    ensures Trim(s, p) == t <==> IsTrimmed(s, p, t)
  {
    hide TrimStart, TrimEnd;
    var a := TrimStartParts(s, p);
    var b := TrimEndParts(TrimStart(s, p), p);
    assert s == a + Trim(s, p) + b;
    if IsTrimmed(s, p, t) {
      var c, d :| AllAre(c, p) && AllAre(d, p) && s == c + t + d;
      assert s == c + (t + d);
      if |t| > 0 {
        TrimStartSkips(c, t + d, p);
        TrimEndSkips(t, d, p);
      } else {
        TrimStartSkips(c + d, "", p);
        assert c + d + "" == s;
        TrimEndSkips("", "", p);
        assert "" + "" == "";
      }
    }
  }

  ghost predicate LosesSpaces(s: string, t: string) {
    IsTrimmed(s, c => c == ' ', t)
  }

  ghost predicate LosesTabs(s: string, t: string) {
    IsTrimmed(s, c => c == '\t', t)
  }

  /** Lines lose their spaces, and what is left loses its tabs. */
  lemma TrimLineExactly(s: string, t: string)
    ensures TrimLine(s) == t <==> exists m :: LosesSpaces(s, m) && LosesTabs(m, t)
  {
    var m := Trim(s, c => c == ' ');
    TrimExactly(s, c => c == ' ', m);
    TrimExactly(m, c => c == '\t', t);
    assert LosesSpaces(s, m);
    assert LosesTabs(m, t) <==> TrimLine(s) == t;
    hide IsTrimmed, Trim;
    forall n | LosesSpaces(s, n) ensures n == m {
      TrimExactly(s, c => c == ' ', n);
      assert LosesSpaces(s, n) <==> IsTrimmed(s, c => c == ' ', n);
    }
  }

  ghost predicate LosesBlanks(s: string, t: string) {
    IsTrimmed(s, c => Chars.IsWhitespace(c), t)
  }

  lemma TrimBlanksExactly(s: string, t: string)
    ensures TrimBlanks(s) == t <==> LosesBlanks(s, t)
  {
    TrimExactly(s, c => Chars.IsWhitespace(c), t);
  }
}
