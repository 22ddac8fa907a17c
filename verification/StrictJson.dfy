/** The duplicate-key scanner: one pass over the raw text with a stack of open brackets. */
module StrictJson {
  import opened Outcomes
  import Chars

  datatype ScanError = DuplicateKey(key: string) | Malformed(what: string)

  datatype Ctx = Object(seen: set<string>, expectKey: bool) | Array

  type Verdict = Result<(), ScanError>

  const UNEXPECTED_BRACE: ScanError := Malformed("unexpected }")
  const UNEXPECTED_BRACKET: ScanError := Malformed("unexpected ]")
  const UNTERMINATED: ScanError := Malformed("unterminated object/array")
  const UNTERMINATED_STRING: ScanError := Malformed("unterminated string")
  const UNTERMINATED_ESCAPE: ScanError := Malformed("unterminated escape")

  // -------------------------------------------------------------------
  // The scanner as a function of the remaining text
  // -------------------------------------------------------------------

  /** Read a string literal after its opening quote: the key text and what follows the literal. */
  function StringAt(text: string): (r: Result<(string, string), ScanError>)
    ensures r.Ok? ==> |r.value.1| < |text|
  {
    if |text| == 0 then Err(UNTERMINATED_STRING)
    else if text[0] == '"' then Ok(("", text[1..]))
    else if text[0] == '\\' then
      if |text| == 1 then Err(UNTERMINATED_ESCAPE)
      else Prefixed(text[1], StringAt(text[2..]))
    else Prefixed(text[0], StringAt(text[1..]))
  }

  function Prefixed(c: char, r: Result<(string, string), ScanError>): Result<(string, string), ScanError> {
    match r
    case Err(e) => Err(e)
    case Ok((s, rest)) => Ok(([c] + s, rest))
  }

  /** The context after a string literal `key` was read under the top of the stack. */
  function AfterString(top: Ctx, key: string): Result<Ctx, ScanError> {
    match top
    case Object(seen, true) =>
      if key in seen then Err(DuplicateKey(key)) else Ok(Object(seen + {key}, false))
    case _ => Ok(top)
  }

  function AfterComma(top: Ctx): Ctx {
    match top
    case Object(seen, _) => Object(seen, true)
    case Array => Array
  }

  function Scan(text: string, stack: seq<Ctx>): Verdict
    decreases |text|
  {
    if |text| == 0 then
      if |stack| == 0 then Ok(()) else Err(UNTERMINATED)
    else
      var c, rest, n := text[0], text[1..], |stack|;
      if c == '{' then Scan(rest, stack + [Object({}, true)])
      else if c == '[' then Scan(rest, stack + [Array])
      else if c == '}' then
        if n > 0 && stack[n - 1].Object? then Scan(rest, stack[..n - 1]) else Err(UNEXPECTED_BRACE)
      else if c == ']' then
        if n > 0 && stack[n - 1].Array? then Scan(rest, stack[..n - 1]) else Err(UNEXPECTED_BRACKET)
      else if c == ',' then
        Scan(rest, if n > 0 then stack[n - 1 := AfterComma(stack[n - 1])] else stack)
      else if c == '"' then
        match StringAt(rest)
        case Err(e) => Err(e)
        case Ok((key, tail)) =>
          if n == 0 then Scan(tail, stack)
          else
            match AfterString(stack[n - 1], key)
            case Err(e) => Err(e)
            case Ok(top) => Scan(tail, stack[n - 1 := top])
      else Scan(rest, stack)
  }

  // -------------------------------------------------------------------
  // The scanner as it runs
  // -------------------------------------------------------------------

  method ParseString(text: string, start: nat) returns (r: Result<(string, nat), ScanError>)
    requires start < |text| && text[start] == '"'
    ensures r.Ok? ==> start < r.value.1 <= |text|
    ensures StringAt(text[start + 1..])
         == match r { case Ok((s, end)) => Ok((s, text[end..])) case Err(e) => Err(e) }
  {
    var s, pos := "", start + 1;
    ghost var whole := StringAt(text[pos..]);
    assert whole.Ok? ==> "" + whole.value.0 == whole.value.0;
    while pos < |text|
      invariant start < pos <= |text|
      invariant whole == Joined(s, StringAt(text[pos..]))
    {
      var c := text[pos];
      assert text[pos..][1..] == text[pos + 1..];
      if c == '"' {
        assert s + "" == s;
        return Ok((s, pos + 1));
      } else if c == '\\' {
        if pos + 1 == |text| {
          return Err(UNTERMINATED_ESCAPE);
        }
        assert text[pos..][2..] == text[pos + 2..];
        JoinedStep(s, text[pos + 1], StringAt(text[pos + 2..]));
        s, pos := s + [text[pos + 1]], pos + 2;
      } else {
        JoinedStep(s, c, StringAt(text[pos + 1..]));
        s, pos := s + [c], pos + 1;
      }
    }
    r := Err(UNTERMINATED_STRING);
  }

  ghost function Joined(s: string, r: Result<(string, string), ScanError>): Result<(string, string), ScanError> {
    match r
    case Err(e) => Err(e)
    case Ok((t, rest)) => Ok((s + t, rest))
  }

  lemma JoinedStep(s: string, c: char, r: Result<(string, string), ScanError>)
    ensures Joined(s, Prefixed(c, r)) == Joined(s + [c], r)
  {
    if r.Ok? {
      assert s + ([c] + r.value.0) == (s + [c]) + r.value.0;
    }
  }

  method CheckNoDuplicateKeys(text: string) returns (r: Verdict)
    ensures r == Scan(text, [])
  {
    var stack: seq<Ctx> := [];
    var pos := 0;
    while pos < |text|
      invariant 0 <= pos <= |text|
      invariant Scan(text[pos..], stack) == Scan(text, [])
      decreases |text| - pos
    {
      var c := text[pos];
      assert text[pos..][1..] == text[pos + 1..];
      assert |stack| > 0 ==> stack[|stack| - 1 := stack[|stack| - 1]] == stack;
      if Chars.IsWhitespace(c) {
        pos := pos + 1;
      } else if c == '{' {
        stack, pos := stack + [Object({}, true)], pos + 1;
      } else if c == '}' {
        if |stack| == 0 || !stack[|stack| - 1].Object? {
          return Err(UNEXPECTED_BRACE);
        }
        stack, pos := stack[..|stack| - 1], pos + 1;
      } else if c == '[' {
        stack, pos := stack + [Array], pos + 1;
      } else if c == ']' {
        if |stack| == 0 || !stack[|stack| - 1].Array? {
          return Err(UNEXPECTED_BRACKET);
        }
        stack, pos := stack[..|stack| - 1], pos + 1;
      } else if c == ',' {
        if |stack| > 0 && stack[|stack| - 1].Object? {
          stack := stack[|stack| - 1 := Object(stack[|stack| - 1].seen, true)];
        }
        pos := pos + 1;
      } else if c == '"' {
        var s := ParseString(text, pos);
        if s.Err? {
          return Err(s.error);
        }
        var key := s.value.0;
        if |stack| > 0 && stack[|stack| - 1].Object? && stack[|stack| - 1].expectKey {
          var seen := stack[|stack| - 1].seen;
          if key in seen {
            return Err(DuplicateKey(key));
          }
          stack := stack[|stack| - 1 := Object(seen + {key}, false)];
        }
        pos := s.value.1;
      } else {
        pos := pos + 1;
      }
    }
    r := if |stack| == 0 then Ok(()) else Err(UNTERMINATED);
  }

  // -------------------------------------------------------------------
  // JSON trees and their texts
  // -------------------------------------------------------------------

  /** One piece of a string literal: a plain character or a backslash and the character after it. */
  datatype Piece = Plain(c: char) | Escape(c: char)

  /** A JSON value together with the whitespace it is printed with. */
  datatype Json =
    | Scalar(text: string)
    | Str(raw: seq<Piece>)
    | Arr(gap: string, elems: Elems)
    | Obj(gap: string, members: Members)

  datatype Elems = NoElems | Elem(pre: string, value: Json, post: string, tail: Elems)

  datatype Members =
    | NoMembers
    | Member(pre: string, key: seq<Piece>, mid: string, gap: string, value: Json, post: string, tail: Members)

  const STRUCTURAL: string := "{}[],:\""

  predicate Blank(ws: string) {
    forall i :: 0 <= i < |ws| ==> ws[i] in " \t\n\r"
  }

  /** Scalars (numbers, true, false, null) never contain a structural character. */
  predicate Inert(s: string) {
    forall i :: 0 <= i < |s| ==> s[i] !in STRUCTURAL
  }

  predicate LegalPieces(raw: seq<Piece>) {
    forall i :: 0 <= i < |raw| ==> raw[i].Plain? ==> raw[i].c != '"' && raw[i].c != '\\'
  }

  predicate Legal(v: Json) {
    match v
    case Scalar(t) => Inert(t)
    case Str(raw) => LegalPieces(raw)
    case Arr(gap, es) => Blank(gap) && LegalElems(es)
    case Obj(gap, ms) => Blank(gap) && LegalMembers(ms)
  }

  predicate LegalElems(es: Elems) {
    match es
    case NoElems => true
    case Elem(pre, v, post, tail) => Blank(pre) && Blank(post) && Legal(v) && LegalElems(tail)
  }

  predicate LegalMembers(ms: Members) {
    match ms
    case NoMembers => true
    case Member(pre, key, mid, gap, v, post, tail) =>
      && Blank(pre) && LegalPieces(key) && Blank(mid) && Blank(gap) && Blank(post)
      && Legal(v) && LegalMembers(tail)
  }

  function PrintPieces(raw: seq<Piece>): string {
    if |raw| == 0 then ""
    else (match raw[0] case Plain(c) => [c] case Escape(c) => ['\\', c]) + PrintPieces(raw[1..])
  }

  function Quote(raw: seq<Piece>): string {
    "\"" + PrintPieces(raw) + "\""
  }

  function Print(v: Json): string
    decreases v, 0
  {
    match v
    case Scalar(t) => t
    case Str(raw) => Quote(raw)
    case Arr(gap, es) => "[" + gap + PrintElems(es) + "]"
    case Obj(gap, ms) => "{" + gap + PrintMembers(ms) + "}"
  }

  function PrintElems(es: Elems): string
    decreases es, 0
  {
    match es
    case NoElems => ""
    case Elem(pre, v, post, tail) =>
      pre + Print(v) + post + (if tail.NoElems? then "" else "," + PrintElems(tail))
  }

  function PrintMembers(ms: Members): string
    decreases ms, 0
  {
    match ms
    case NoMembers => ""
    case Member(pre, key, mid, gap, v, post, tail) =>
      pre + Quote(key) + mid + ":" + gap + Print(v) + post + MoreMembers(tail)
  }

  function MoreMembers(ms: Members): string
    decreases ms, 1
  {
    if ms.NoMembers? then "" else "," + PrintMembers(ms)
  }

  // -------------------------------------------------------------------
  // Duplicate keys, defined on trees
  // -------------------------------------------------------------------

  /** A key as the scanner reads it: each escape stands for the character after the backslash. */
  function KeyText(raw: seq<Piece>): (s: string)
    ensures |s| == |raw| && forall i :: 0 <= i < |raw| ==> s[i] == raw[i].c
  {
    seq(|raw|, i requires 0 <= i < |raw| => raw[i].c)
  }

  function Keys(ms: Members): seq<string> {
    match ms
    case NoMembers => []
    case Member(_, key, _, _, _, _, tail) => [KeyText(key)] + Keys(tail)
  }

  ghost predicate Distinct<T>(keys: seq<T>) {
    forall i, j :: 0 <= i < j < |keys| ==> keys[i] != keys[j]
  }

  /** No object at any depth has two members with equal keys. */
  ghost predicate DuplicateFree(v: Json) {
    match v
    case Scalar(_) => true
    case Str(_) => true
    case Arr(_, es) => DuplicateFreeElems(es)
    case Obj(_, ms) => Distinct(Keys(ms)) && DuplicateFreeMembers(ms)
  }

  ghost predicate DuplicateFreeElems(es: Elems) {
    match es
    case NoElems => true
    case Elem(_, v, _, tail) => DuplicateFree(v) && DuplicateFreeElems(tail)
  }

  ghost predicate DuplicateFreeMembers(ms: Members) {
    match ms
    case NoMembers => true
    case Member(_, _, _, _, v, _, tail) => DuplicateFree(v) && DuplicateFreeMembers(tail)
  }

  /** The key whose second occurrence comes first in the text, if any. */
  function FirstDuplicate(v: Json): Option<string> {
    match v
    case Scalar(_) => None
    case Str(_) => None
    case Arr(_, es) => FirstInElems(es)
    case Obj(_, ms) => FirstInMembers(ms, {})
  }

  function FirstInElems(es: Elems): Option<string> {
    match es
    case NoElems => None
    case Elem(_, v, _, tail) =>
      var d := FirstDuplicate(v);
      if d.Some? then d else FirstInElems(tail)
  }

  function FirstInMembers(ms: Members, seen: set<string>): Option<string> {
    match ms
    case NoMembers => None
    case Member(_, key, _, _, v, _, tail) =>
      if KeyText(key) in seen then Some(KeyText(key))
      else
        var d := FirstDuplicate(v);
        if d.Some? then d else FirstInMembers(tail, seen + {KeyText(key)})
  }

  lemma {:induction false} NoFirstMeansFree(v: Json)
    ensures FirstDuplicate(v).None? <==> DuplicateFree(v)
  {
    match v
    case Scalar(_) =>
    case Str(_) =>
    case Arr(_, es) => NoFirstMeansFreeElems(es);
    case Obj(_, ms) => NoFirstMeansFreeMembers(ms, {});
  }

  lemma {:induction false} NoFirstMeansFreeElems(es: Elems)
    ensures FirstInElems(es).None? <==> DuplicateFreeElems(es)
  {
    match es
    case NoElems =>
    case Elem(_, v, _, tail) =>
      NoFirstMeansFree(v);
      NoFirstMeansFreeElems(tail);
  }

  lemma {:induction false} NoFirstMeansFreeMembers(ms: Members, seen: set<string>)
    ensures FirstInMembers(ms, seen).None?
       <==> && Distinct(Keys(ms)) && DuplicateFreeMembers(ms)
            && forall i :: 0 <= i < |Keys(ms)| ==> Keys(ms)[i] !in seen
  {
    match ms
    case NoMembers =>
    case Member(_, key, _, _, v, _, tail) =>
      NoFirstMeansFree(v);
      var k, ks := KeyText(key), Keys(tail);
      NoFirstMeansFreeMembers(tail, seen + {k});
      var all := Keys(ms);
      assert all[0] == k && all[1..] == ks;
      assert forall i :: 0 <= i < |ks| ==> all[i + 1] == ks[i];
      if Distinct(all) {
        assert forall i, j :: 0 <= i < j < |ks| ==> ks[i] == all[i + 1] && ks[j] == all[j + 1];
      }
      if Distinct(ks) && (forall i :: 0 <= i < |ks| ==> ks[i] != k) {
        forall i, j | 0 <= i < j < |all| ensures all[i] != all[j] {
          if i > 0 { assert all[i] == ks[i - 1] && all[j] == ks[j - 1]; }
        }
      }
  }

  // -------------------------------------------------------------------
  // The scanner agrees with the trees
  // -------------------------------------------------------------------

  lemma {:induction false} ReadsQuoted(raw: seq<Piece>, rest: string)
    requires LegalPieces(raw)
    ensures StringAt(PrintPieces(raw) + "\"" + rest) == Ok((KeyText(raw), rest))
  {
    var text := PrintPieces(raw) + "\"" + rest;
    if |raw| == 0 {
      assert text == "\"" + rest;
      assert text[1..] == rest;
    } else {
      ReadsQuoted(raw[1..], rest);
      var tail := PrintPieces(raw[1..]) + "\"" + rest;
      assert KeyText(raw) == [raw[0].c] + KeyText(raw[1..]);
      match raw[0]
      case Plain(c) =>
        assert text == [c] + tail;
        assert text[1..] == tail;
      case Escape(c) =>
        assert text == ['\\', c] + tail;
        assert text[2..] == tail;
    }
  }

  lemma {:induction false} SkipsInert(s: string, rest: string, stack: seq<Ctx>)
    requires Inert(s)
    ensures Scan(s + rest, stack) == Scan(rest, stack)
  {
    if |s| == 0 {
      assert s + rest == rest;
    } else {
      var text := s + rest;
      assert text[0] == s[0] && text[1..] == s[1..] + rest;
      assert s[0] !in STRUCTURAL;
      assert STRUCTURAL[0] == '{' && STRUCTURAL[1] == '}' && STRUCTURAL[2] == '[' && STRUCTURAL[3] == ']'
          && STRUCTURAL[4] == ',' && STRUCTURAL[5] == ':' && STRUCTURAL[6] == '"';
      SkipsInert(s[1..], rest, stack);
    }
  }

  lemma BlankIsInert(ws: string)
    requires Blank(ws)
    ensures Inert(ws)
  {
    forall i | 0 <= i < |ws| ensures ws[i] !in STRUCTURAL {
      assert ws[i] in " \t\n\r";
    }
  }

  lemma SkipsBlank(ws: string, rest: string, stack: seq<Ctx>)
    requires Blank(ws)
    ensures Scan(ws + rest, stack) == Scan(rest, stack)
  {
    BlankIsInert(ws);
    SkipsInert(ws, rest, stack);
  }

  lemma ScansChar(c: char, rest: string, stack: seq<Ctx>)
    ensures c == '{' ==> Scan([c] + rest, stack) == Scan(rest, stack + [Object({}, true)])
    ensures c == '[' ==> Scan([c] + rest, stack) == Scan(rest, stack + [Array])
    ensures c == ':' ==> Scan([c] + rest, stack) == Scan(rest, stack)
    ensures c == '}' && |stack| > 0 && stack[|stack| - 1].Object? ==>
              Scan([c] + rest, stack) == Scan(rest, stack[..|stack| - 1])
    ensures c == ']' && |stack| > 0 && stack[|stack| - 1].Array? ==>
              Scan([c] + rest, stack) == Scan(rest, stack[..|stack| - 1])
    ensures c == ',' && |stack| > 0 ==>
              Scan([c] + rest, stack) == Scan(rest, stack[|stack| - 1 := AfterComma(stack[|stack| - 1])])
  {
    assert ([c] + rest)[1..] == rest;
  }

  lemma ScansQuoted(raw: seq<Piece>, rest: string, stack: seq<Ctx>)
    requires LegalPieces(raw)
    ensures Scan(Quote(raw) + rest, stack)
         == if |stack| == 0 then Scan(rest, stack)
            else match AfterString(stack[|stack| - 1], KeyText(raw))
                 case Err(e) => Err(e)
                 case Ok(top) => Scan(rest, stack[|stack| - 1 := top])
  {
    var text := Quote(raw) + rest;
    assert text[1..] == PrintPieces(raw) + "\"" + rest;
    ReadsQuoted(raw, rest);
  }

  /** A value may stand here: not where an object expects a key. */
  predicate ValuePosition(stack: seq<Ctx>) {
    |stack| == 0 || stack[|stack| - 1].Array? || !stack[|stack| - 1].expectKey
  }

  function After(d: Option<string>, rest: Verdict): Verdict {
    if d.Some? then Err(DuplicateKey(d.value)) else rest
  }

  lemma {:induction false} ScansValue(v: Json, rest: string, stack: seq<Ctx>)
    requires Legal(v) && ValuePosition(stack)
    ensures Scan(Print(v) + rest, stack) == After(FirstDuplicate(v), Scan(rest, stack))
    decreases v, 1
  {
    match v
    case Scalar(t) => SkipsInert(t, rest, stack);
    case Str(raw) =>
      ScansQuoted(raw, rest, stack);
      if |stack| > 0 {
        assert stack[|stack| - 1 := stack[|stack| - 1]] == stack;
      }
    case Arr(gap, es) =>
      ScansArray(gap, es, rest, stack);
    case Obj(gap, ms) =>
      ScansObject(gap, ms, rest, stack);
  }

  lemma {:induction false} ScansArray(gap: string, es: Elems, rest: string, stack: seq<Ctx>)
    requires Blank(gap) && LegalElems(es)
    ensures Scan("[" + gap + PrintElems(es) + "]" + rest, stack) == After(FirstInElems(es), Scan(rest, stack))
    decreases es, 2
  {
    var inner := stack + [Array];
    var body := PrintElems(es) + ("]" + rest);
    assert "[" + gap + PrintElems(es) + "]" + rest == "[" + (gap + body);
    ScansChar('[', gap + body, stack);
    SkipsBlank(gap, body, inner);
    ScansElems(es, "]" + rest, inner);
    ScansChar(']', rest, inner);
    assert inner[..|inner| - 1] == stack;
  }

  lemma {:induction false} ScansElems(es: Elems, rest: string, stack: seq<Ctx>)
    requires LegalElems(es) && |stack| > 0 && stack[|stack| - 1].Array?
    ensures Scan(PrintElems(es) + rest, stack) == After(FirstInElems(es), Scan(rest, stack))
    decreases es, 1
  {
    match es
    case NoElems => assert PrintElems(es) + rest == rest;
    case Elem(pre, v, post, tail) =>
      var next := if tail.NoElems? then rest else "," + (PrintElems(tail) + rest);
      assert PrintElems(es) + rest == pre + (Print(v) + (post + next));
      SkipsBlank(pre, Print(v) + (post + next), stack);
      ScansValue(v, post + next, stack);
      SkipsBlank(post, next, stack);
      if !tail.NoElems? {
        ScansChar(',', PrintElems(tail) + rest, stack);
        assert stack[|stack| - 1 := AfterComma(stack[|stack| - 1])] == stack;
        ScansElems(tail, rest, stack);
      }
  }

  lemma {:induction false} ScansObject(gap: string, ms: Members, rest: string, stack: seq<Ctx>)
    requires Blank(gap) && LegalMembers(ms)
    ensures Scan("{" + gap + PrintMembers(ms) + "}" + rest, stack)
         == After(FirstInMembers(ms, {}), Scan(rest, stack))
    decreases ms, 2
  {
    var inner := stack + [Object({}, true)];
    var body := PrintMembers(ms) + ("}" + rest);
    assert "{" + gap + PrintMembers(ms) + "}" + rest == "{" + (gap + body);
    ScansChar('{', gap + body, stack);
    SkipsBlank(gap, body, inner);
    ScansMembers(ms, {}, rest, stack);
  }

  lemma {:induction false} ScansMembers(ms: Members, seen: set<string>, rest: string, stack: seq<Ctx>)
    requires LegalMembers(ms)
    ensures Scan(PrintMembers(ms) + ("}" + rest), stack + [Object(seen, true)])
         == After(FirstInMembers(ms, seen), Scan(rest, stack))
    decreases ms, 1
  {
    hide Scan;
    match ms
    case NoMembers =>
      var inner := stack + [Object(seen, true)];
      assert PrintMembers(ms) + ("}" + rest) == "}" + rest;
      ScansChar('}', rest, inner);
      assert inner[..|inner| - 1] == stack;
    case Member(pre, key, mid, gap, v, post, tail) =>
      var k := KeyText(key);
      var next := MoreMembers(tail) + ("}" + rest);
      ScansMember(ms, seen, next, stack);
      MemberText(ms, "}" + rest);
      if k !in seen {
        var valued := stack + [Object(seen + {k}, false)];
        if tail.NoMembers? {
          assert next == "}" + rest;
          ScansChar('}', rest, valued);
          assert valued[..|valued| - 1] == stack;
        } else {
          assert next == "," + (PrintMembers(tail) + ("}" + rest));
          ScansChar(',', PrintMembers(tail) + ("}" + rest), valued);
          assert valued[|valued| - 1 := Object(seen + {k}, true)] == stack + [Object(seen + {k}, true)];
          ScansMembers(tail, seen + {k}, rest, stack);
        }
      }
  }

  /** One member: its key is looked up, then its value is scanned. */
  lemma {:induction false} ScansMember(m: Members, seen: set<string>, next: string, stack: seq<Ctx>)
    requires m.Member? && LegalMembers(m)
    ensures Scan(m.pre + (Quote(m.key) + (m.mid + (":" + (m.gap + (Print(m.value) + (m.post + next)))))),
                 stack + [Object(seen, true)])
         == if KeyText(m.key) in seen then Err(DuplicateKey(KeyText(m.key)))
            else After(FirstDuplicate(m.value), Scan(next, stack + [Object(seen + {KeyText(m.key)}, false)]))
    decreases m, 0
  {
    hide Scan, Quote;
    var inner, k := stack + [Object(seen, true)], KeyText(m.key);
    var value := Print(m.value) + (m.post + next);
    var colon := m.mid + (":" + (m.gap + value));
    SkipsBlank(m.pre, Quote(m.key) + colon, inner);
    ScansQuoted(m.key, colon, inner);
    if k !in seen {
      var valued := stack + [Object(seen + {k}, false)];
      assert inner[|inner| - 1 := Object(seen + {k}, false)] == valued;
      SkipsBlank(m.mid, ":" + (m.gap + value), valued);
      ScansChar(':', m.gap + value, valued);
      SkipsBlank(m.gap, value, valued);
      ScansValue(m.value, m.post + next, valued);
      SkipsBlank(m.post, next, valued);
    }
  }

  lemma MemberText(ms: Members, rest: string)
    requires ms.Member?
    ensures PrintMembers(ms) + rest
         == ms.pre + (Quote(ms.key) + (ms.mid + (":" + (ms.gap + (Print(ms.value)
            + (ms.post + (MoreMembers(ms.tail) + rest)))))))
  {
    hide Quote, Print, MoreMembers;
    Regroup(ms.pre, Quote(ms.key), ms.mid, ms.gap, Print(ms.value), ms.post, MoreMembers(ms.tail), rest);
  }

  lemma Regroup(a: string, b: string, c: string, d: string, e: string, f: string, g: string, h: string)
    ensures (a + b + c + ":" + d + e + f + g) + h == a + (b + (c + (":" + (d + (e + (f + (g + h)))))))
  {
  }

  /** On every legal text the scanner succeeds iff no object at any depth repeats a key; otherwise it
      names the key whose repetition comes first. */
  lemma ScannerAgreesWithTree(before: string, v: Json, after: string)
    requires Blank(before) && Legal(v) && Blank(after)
    ensures Scan(before + Print(v) + after, []) == After(FirstDuplicate(v), Ok(()))
    ensures Scan(before + Print(v) + after, []).Ok? <==> DuplicateFree(v)
  {
    assert before + Print(v) + after == before + (Print(v) + after);
    SkipsBlank(before, Print(v) + after, []);
    ScansValue(v, after, []);
    assert after + "" == after;
    SkipsBlank(after, "", []);
    NoFirstMeansFree(v);
  }

  // -------------------------------------------------------------------
  // Where the scanner's keys and decoded keys part (section 7 of RFC 8259)
  // -------------------------------------------------------------------

  function HexValue(c: char): nat {
    if '0' <= c <= '9' then c as int - '0' as int
    else if 'a' <= c <= 'f' then c as int - 'a' as int + 10
    else if 'A' <= c <= 'F' then c as int - 'A' as int + 10
    else 0
  }

  function Utf16(c: char): seq<int> {
    var n := c as int;
    if n < 0x1_0000 then [n] else [0xD800 + (n - 0x1_0000) / 0x400, 0xDC00 + (n - 0x1_0000) % 0x400]
  }

  /** The UTF-16 code units a string literal denotes. */
  function Decoded(raw: seq<Piece>): seq<int> {
    if |raw| == 0 then []
    else match raw[0]
      case Plain(c) => Utf16(c) + Decoded(raw[1..])
      case Escape(c) =>
        if c == 'u' && |raw| >= 5 then
          [HexValue(raw[1].c) * 0x1000 + HexValue(raw[2].c) * 0x100 + HexValue(raw[3].c) * 0x10 + HexValue(raw[4].c)]
          + Decoded(raw[5..])
        else
          [if c == 'n' then 10 else if c == 't' then 9 else if c == 'r' then 13
           else if c == 'b' then 8 else if c == 'f' then 12 else c as int] + Decoded(raw[1..])
  }

  predicate IsHex(p: Piece) {
    p.Plain? && ('0' <= p.c <= '9' || 'a' <= p.c <= 'f' || 'A' <= p.c <= 'F')
  }

  /** The escapes of section 7 of RFC 8259. */
  predicate WellEscaped(raw: seq<Piece>) {
    |raw| == 0 ||
    match raw[0]
    case Plain(c) => c != '"' && c != '\\' && WellEscaped(raw[1..])
    case Escape(c) =>
      if c == 'u' then
        |raw| >= 5 && IsHex(raw[1]) && IsHex(raw[2]) && IsHex(raw[3]) && IsHex(raw[4]) && WellEscaped(raw[5..])
      else IsShort(c) && WellEscaped(raw[1..])
  }

  predicate IsShort(c: char) {
    StandsForItself(c) || c == 'b' || c == 'f' || c == 'n' || c == 'r' || c == 't'
  }

  /** The escaped characters that denote themselves. */
  predicate StandsForItself(c: char) {
    c == '"' || c == '\\' || c == '/'
  }

  predicate Simple(raw: seq<Piece>) {
    forall i :: 0 <= i < |raw| ==> raw[i].Escape? ==> StandsForItself(raw[i].c)
  }

  /** The code units of a text. */
  function Units(s: string): seq<int> {
    if |s| == 0 then [] else Utf16(s[0]) + Units(s[1..])
  }

  lemma KeyTextTail(raw: seq<Piece>, n: nat)
    requires n <= |raw|
    ensures KeyText(raw)[n..] == KeyText(raw[n..])
  {
  }

  lemma FirstUnits(c: char, s: seq<int>, d: char, t: seq<int>)
    ensures Utf16(c) + s == Utf16(d) + t <==> c == d && s == t
  {
    if Utf16(c) + s == Utf16(d) + t {
      assert (Utf16(c) + s)[0] == Utf16(c)[0] && (Utf16(d) + t)[0] == Utf16(d)[0];
      if c as int >= 0x1_0000 && d as int >= 0x1_0000 {
        assert (Utf16(c) + s)[1] == Utf16(c)[1] && (Utf16(d) + t)[1] == Utf16(d)[1];
        assert s == (Utf16(c) + s)[2..] && t == (Utf16(d) + t)[2..];
      } else {
        CharRange(c);
        CharRange(d);
        assert s == (Utf16(c) + s)[1..] && t == (Utf16(d) + t)[1..];
      }
    }
  }

  lemma CharRange(c: char)
    ensures 0 <= c as int < 0xD800 || 0xE000 <= c as int < 0x11_0000
  {
  }

  lemma {:induction false} UnitsInjective(s: string, t: string)
    ensures Units(s) == Units(t) <==> s == t
  {
    if |s| > 0 && |t| > 0 {
      FirstUnits(s[0], Units(s[1..]), t[0], Units(t[1..]));
      UnitsInjective(s[1..], t[1..]);
      assert s == [s[0]] + s[1..] && t == [t[0]] + t[1..];
    }
  }

  /** A literal denotes at most as many code units as the scanner reads characters of it, and fewer if it begins
      with a hexadecimal escape. */
  lemma {:induction false} DecodedIsShorter(raw: seq<Piece>)
    requires WellEscaped(raw)
    ensures |Decoded(raw)| <= |Units(KeyText(raw))|
    ensures |raw| > 0 && raw[0] == Escape('u') ==> |Decoded(raw)| < |Units(KeyText(raw))|
  {
    if |raw| > 0 {
      KeyTextTail(raw, 1);
      if raw[0] == Escape('u') {
        DecodedIsShorter(raw[5..]);
        KeyTextTail(raw, 5);
        UnitsGrow(KeyText(raw), 5);
      } else {
        DecodedIsShorter(raw[1..]);
      }
    }
  }

  lemma {:induction false} UnitsGrow(s: string, n: nat)
    requires n <= |s|
    ensures |Units(s)| >= n + |Units(s[n..])|
  {
    if n > 0 {
      UnitsGrow(s[1..], n - 1);
      assert s[1..][n - 1..] == s[n..];
    } else {
      assert s[0..] == s;
    }
  }

  /** The scanner reads a literal as what it denotes iff the only escapes in it are the quote, the backslash and
      the slash. */
  lemma {:induction false} ReadAsDenoted(raw: seq<Piece>)
    requires WellEscaped(raw)
    ensures Decoded(raw) == Units(KeyText(raw)) <==> Simple(raw)
  {
    if |raw| > 0 {
      KeyTextTail(raw, 1);
      var tail := raw[1..];
      if raw[0] == Escape('u') {
        DecodedIsShorter(raw);
      } else {
        ReadAsDenoted(tail);
        SimpleTail(raw);
        var unit, rest := Decoded(raw), Units(KeyText(tail));
        if raw[0].Plain? {
          FirstUnits(raw[0].c, Decoded(tail), raw[0].c, rest);
        } else {
          assert Units(KeyText(raw)) == [raw[0].c as int] + rest;
          assert unit[1..] == Decoded(tail) && Units(KeyText(raw))[1..] == rest;
          assert unit == [unit[0]] + unit[1..];
        }
      }
    }
  }

  lemma SimpleTail(raw: seq<Piece>)
    requires |raw| > 0
    ensures Simple(raw) <==> (raw[0].Escape? ==> StandsForItself(raw[0].c)) && Simple(raw[1..])
  {
    if Simple(raw[1..]) {
      forall i | 0 < i < |raw| ensures raw[i].Escape? ==> StandsForItself(raw[i].c) {
        assert raw[i] == raw[1..][i - 1];
      }
    }
  }

  lemma {:induction false} SimpleIsWellEscaped(raw: seq<Piece>)
    requires Simple(raw) && LegalPieces(raw)
    ensures WellEscaped(raw)
  {
    if |raw| > 0 {
      SimpleIsWellEscaped(raw[1..]);
    }
  }

  /** Keys with no other escapes are equal to the scanner iff they denote the same string. */
  lemma SimpleKeysAgree(a: seq<Piece>, b: seq<Piece>)
    requires Simple(a) && Simple(b) && LegalPieces(a) && LegalPieces(b)
    ensures KeyText(a) == KeyText(b) <==> Decoded(a) == Decoded(b)
  {
    SimpleIsWellEscaped(a);
    SimpleIsWellEscaped(b);
    ReadAsDenoted(a);
    ReadAsDenoted(b);
    UnitsInjective(KeyText(a), KeyText(b));
  }

  // -------------------------------------------------------------------
  // Whole documents
  // -------------------------------------------------------------------

  function DecodedKeys(ms: Members): seq<seq<int>> {
    match ms
    case NoMembers => []
    case Member(_, key, _, _, _, _, tail) => [Decoded(key)] + DecodedKeys(tail)
  }

  /** No object at any depth has two members whose keys denote the same string. */
  ghost predicate Unambiguous(v: Json) {
    match v
    case Scalar(_) => true
    case Str(_) => true
    case Arr(_, es) => UnambiguousElems(es)
    case Obj(_, ms) => Distinct(DecodedKeys(ms)) && UnambiguousMembers(ms)
  }

  ghost predicate UnambiguousElems(es: Elems) {
    match es
    case NoElems => true
    case Elem(_, v, _, tail) => Unambiguous(v) && UnambiguousElems(tail)
  }

  ghost predicate UnambiguousMembers(ms: Members) {
    match ms
    case NoMembers => true
    case Member(_, _, _, _, v, _, tail) => Unambiguous(v) && UnambiguousMembers(tail)
  }

  /** Every key literal of the document is simple. */
  predicate SimpleKeys(v: Json) {
    match v
    case Scalar(_) => true
    case Str(_) => true
    case Arr(_, es) => SimpleElems(es)
    case Obj(_, ms) => SimpleMembers(ms)
  }

  predicate SimpleElems(es: Elems) {
    match es
    case NoElems => true
    case Elem(_, v, _, tail) => SimpleKeys(v) && SimpleElems(tail)
  }

  predicate SimpleMembers(ms: Members) {
    match ms
    case NoMembers => true
    case Member(_, key, _, _, v, _, tail) => Simple(key) && SimpleKeys(v) && SimpleMembers(tail)
  }

  /** The keys as the scanner reads them, one for each decoded key. */
  lemma {:induction false} KeysDenote(ms: Members)
    requires LegalMembers(ms) && SimpleMembers(ms)
    ensures |DecodedKeys(ms)| == |Keys(ms)|
    ensures forall i :: 0 <= i < |Keys(ms)| ==> DecodedKeys(ms)[i] == Units(Keys(ms)[i])
  {
    if ms.Member? {
      KeysDenote(ms.tail);
      SimpleIsWellEscaped(ms.key);
      ReadAsDenoted(ms.key);
    }
  }

  lemma DistinctAlike(ms: Members)
    requires LegalMembers(ms) && SimpleMembers(ms)
    ensures Distinct(DecodedKeys(ms)) <==> Distinct(Keys(ms))
  {
    KeysDenote(ms);
    forall i, j | 0 <= i < j < |Keys(ms)|
      ensures DecodedKeys(ms)[i] == DecodedKeys(ms)[j] <==> Keys(ms)[i] == Keys(ms)[j]
    {
      UnitsInjective(Keys(ms)[i], Keys(ms)[j]);
    }
  }

  lemma {:induction false} FreeIsUnambiguous(v: Json)
    requires Legal(v) && SimpleKeys(v)
    ensures DuplicateFree(v) <==> Unambiguous(v)
  {
    match v
    case Scalar(_) =>
    case Str(_) =>
    case Arr(_, es) => FreeIsUnambiguousElems(es);
    case Obj(_, ms) =>
      DistinctAlike(ms);
      FreeIsUnambiguousMembers(ms);
  }

  lemma {:induction false} FreeIsUnambiguousElems(es: Elems)
    requires LegalElems(es) && SimpleElems(es)
    ensures DuplicateFreeElems(es) <==> UnambiguousElems(es)
  {
    if es.Elem? {
      FreeIsUnambiguous(es.value);
      FreeIsUnambiguousElems(es.tail);
    }
  }

  lemma {:induction false} FreeIsUnambiguousMembers(ms: Members)
    requires LegalMembers(ms) && SimpleMembers(ms)
    ensures DuplicateFreeMembers(ms) <==> UnambiguousMembers(ms)
  {
    if ms.Member? {
      FreeIsUnambiguous(ms.value);
      FreeIsUnambiguousMembers(ms.tail);
    }
  }

  /** On a document with simple keys the scanner succeeds iff no object at any depth has two keys that denote the
      same string. */
  lemma ScannerFindsAmbiguity(before: string, v: Json, after: string)
    requires Blank(before) && Legal(v) && SimpleKeys(v) && Blank(after)
    ensures Scan(before + Print(v) + after, []).Ok? <==> Unambiguous(v)
  {
    ScannerAgreesWithTree(before, v, after);
    FreeIsUnambiguous(v);
  }

  // -------------------------------------------------------------------
  // Exactly the simple keys are safe
  // -------------------------------------------------------------------

  /** `{"a":0,"b":1}` with the given key literals. */
  function Pair(a: seq<Piece>, b: seq<Piece>): Json {
    Obj("", Member("", a, "", "", Scalar("0"), "", Member("", b, "", "", Scalar("1"), "", NoMembers)))
  }

  lemma DigitsAreInert()
    ensures Inert("0") && Inert("1") && Blank("")
  {
    assert STRUCTURAL == ['{', '}', '[', ']', ',', ':', '"'];
  }

  lemma PairIsLegal(a: seq<Piece>, b: seq<Piece>)
    requires LegalPieces(a) && LegalPieces(b)
    ensures Legal(Pair(a, b))
  {
    DigitsAreInert();
    hide Inert, Blank, LegalPieces;
    assert Legal(Scalar("0")) && Legal(Scalar("1"));
    assert LegalMembers(Pair(a, b).members.tail);
    assert LegalMembers(Pair(a, b).members);
  }

  lemma PairDuplicates(a: seq<Piece>, b: seq<Piece>)
    ensures FirstDuplicate(Pair(a, b)) == if KeyText(a) == KeyText(b) then Some(KeyText(b)) else None
    ensures Unambiguous(Pair(a, b)) <==> Decoded(a) != Decoded(b)
  {
    hide Decoded;
    var ms := Pair(a, b).members;
    assert DecodedKeys(ms.tail) == [Decoded(b)] && DecodedKeys(ms) == [Decoded(a), Decoded(b)];
    assert Unambiguous(Scalar("0")) && Unambiguous(Scalar("1"));
    assert UnambiguousMembers(ms.tail) && UnambiguousMembers(ms);
    var keys := DecodedKeys(ms);
    assert keys[0] == Decoded(a) && keys[1] == Decoded(b);
    assert Distinct(keys) <==> keys[0] != keys[1];
    assert FirstDuplicate(Scalar("0")) == None && FirstDuplicate(Scalar("1")) == None;
    var seen := {} + {KeyText(a)};
    assert FirstInMembers(NoMembers, seen + {KeyText(b)}) == None;
    assert FirstInMembers(ms.tail, seen) == if KeyText(b) == KeyText(a) then Some(KeyText(b)) else None;
    assert FirstInMembers(ms, {}) == FirstInMembers(ms.tail, seen);
  }

  lemma PairVerdict(a: seq<Piece>, b: seq<Piece>)
    requires LegalPieces(a) && LegalPieces(b)
    ensures Scan(Print(Pair(a, b)), [])
         == if KeyText(a) == KeyText(b) then Err(DuplicateKey(KeyText(b))) else Ok(())
    ensures Unambiguous(Pair(a, b)) <==> Decoded(a) != Decoded(b)
  {
    hide Scan, Print, FirstDuplicate, Unambiguous, Legal, LegalPieces, DuplicateFree, Decoded, Pair;
    PairIsLegal(a, b);
    PairDuplicates(a, b);
    assert "" + Print(Pair(a, b)) + "" == Print(Pair(a, b));
    ScannerAgreesWithTree("", Pair(a, b), "");
  }

  /** The literal that denotes a text, with no escapes but those of quotes and backslashes. */
  function Literal(s: string): seq<Piece> {
    if |s| == 0 then []
    else [if s[0] == '"' || s[0] == '\\' then Escape(s[0]) else Plain(s[0])] + Literal(s[1..])
  }

  lemma {:induction false} LiteralIsSimple(s: string)
    ensures Simple(Literal(s)) && WellEscaped(Literal(s)) && LegalPieces(Literal(s))
    ensures KeyText(Literal(s)) == s
  {
    if |s| > 0 {
      LiteralIsSimple(s[1..]);
      SimpleTail(Literal(s));
      assert Literal(s)[1..] == Literal(s[1..]);
      KeyTextTail(Literal(s), 1);
      assert s == [s[0]] + s[1..] && KeyText(Literal(s)) == [s[0]] + KeyText(Literal(s))[1..];
    }
  }

  lemma {:induction false} WellEscapedIsLegal(raw: seq<Piece>)
    requires WellEscaped(raw)
    ensures LegalPieces(raw)
  {
    if |raw| > 0 {
      var n := if raw[0] == Escape('u') then 5 else 1;
      WellEscapedIsLegal(raw[n..]);
      forall i | n <= i < |raw| ensures raw[i].Plain? ==> raw[i].c != '"' && raw[i].c != '\\' {
        assert raw[i] == raw[n..][i - n];
      }
    }
  }

  /** The scanner judges a key literal rightly beside every simple one iff it is simple itself. */
  lemma SafeIffSimple(raw: seq<Piece>)
    requires WellEscaped(raw)
    ensures Simple(raw) <==>
              forall other :: Simple(other) && LegalPieces(other) ==>
                (Scan(Print(Pair(raw, other)), []).Ok? <==> Unambiguous(Pair(raw, other)))
  {
    hide Scan, Print, Unambiguous, Simple, LegalPieces, WellEscaped, Decoded, Units;
    WellEscapedIsLegal(raw);
    if Simple(raw) {
      forall other | Simple(other) && LegalPieces(other)
        ensures Scan(Print(Pair(raw, other)), []).Ok? <==> Unambiguous(Pair(raw, other))
      {
        PairVerdict(raw, other);
        SimpleKeysAgree(raw, other);
      }
    } else {
      var other := Literal(KeyText(raw));
      LiteralIsSimple(KeyText(raw));
      PairVerdict(raw, other);
      ReadAsDenoted(raw);
      ReadAsDenoted(other);
    }
  }

  const HEX_A: seq<Piece> := [Escape('u'), Plain('0'), Plain('0'), Plain('6'), Plain('1')]

  lemma HexPrints()
    ensures PrintPieces(HEX_A) == "\\u0061" && Decoded(HEX_A) == [0x61] && LegalPieces(HEX_A)
  {
    var d := HEX_A;
    assert d[1..][1..] == d[2..] && d[2..][1..] == d[3..] && d[3..][1..] == d[4..] && d[4..][1..] == [];
    assert d[5..] == [];
  }

  lemma OnePiece(p: Piece)
    requires p == Plain('n') || p == Escape('n') || p == Plain('a')
    ensures LegalPieces([p]) && KeyText([p]) == [p.c] && Decoded([p]) == [if p.Plain? then p.c as int else 10]
    ensures PrintPieces([p]) == if p.Plain? then [p.c] else ['\\', p.c]
  {
    assert [p][1..] == [];
    assert Utf16(p.c) == [p.c as int];
  }

  lemma PrintsPair(a: seq<Piece>, b: seq<Piece>)
    ensures Print(Pair(a, b)) == "{\"" + PrintPieces(a) + ("\":0,\"" + PrintPieces(b) + "\":1}")
  {
    hide PrintPieces;
    var ms := Pair(a, b).members;
    assert PrintMembers(ms.tail) == Quote(b) + ":" + "1";
    assert PrintMembers(ms) == Quote(a) + ":" + "0" + ("," + PrintMembers(ms.tail));
    hide PrintMembers;
    PrintsQuotes(PrintPieces(a), PrintPieces(b));
  }

  lemma PrintsQuotes(s: string, t: string)
    ensures "{" + "" + (("\"" + s + "\"") + ":" + "0" + ("," + (("\"" + t + "\"") + ":" + "1"))) + "}"
         == "{\"" + s + ("\":0,\"" + t + "\":1}")
  {
  }

  /** Both kinds of mistake: distinct keys rejected, equal keys accepted. */
  lemma EscapedKeysDisagree()
    ensures var v := Pair([Plain('n')], [Escape('n')]);
            && Print(v) == "{\"" + "n" + ("\":0,\"" + "\\n" + "\":1}")
            && Scan(Print(v), []) == Err(DuplicateKey("n")) && Unambiguous(v)
    ensures var w := Pair([Plain('a')], HEX_A);
            && Print(w) == "{\"" + "a" + ("\":0,\"" + "\\u0061" + "\":1}")
            && Scan(Print(w), []) == Ok(()) && !Unambiguous(w)
  {
    hide Scan, Print, Unambiguous, Pair, LegalPieces, Decoded, PrintPieces, HEX_A;
    OnePiece(Plain('n'));
    OnePiece(Escape('n'));
    OnePiece(Plain('a'));
    HexPrints();
    HexLength();
    PairVerdict([Plain('n')], [Escape('n')]);
    PrintsPair([Plain('n')], [Escape('n')]);
    PairVerdict([Plain('a')], HEX_A);
    PrintsPair([Plain('a')], HEX_A);
  }

  lemma HexLength()
    ensures |HEX_A| == 5
  {
  }
}
