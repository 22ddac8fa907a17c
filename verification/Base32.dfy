/** Crockford Base32 of a 32-byte value read as one big-endian 256-bit integer. */
module Base32 {
  import opened Outcomes

  type byte = x: int | 0 <= x < 0x100 witness 0
  type u16 = x: int | 0 <= x < 0x1_0000 witness 0

  /** The two radices the codec converts between. */
  type Radix = b: nat | b == 32 || b == 256 witness 32

  const ALPHABET: string := "0123456789abcdefghjkmnpqrstvwxyz"
  const ENCODED_LEN: nat := 52
  const BYTES: nat := 32

  datatype DecodeError = WrongLength(len: nat) | InvalidChar(ch: char, at: nat) | Overflow

  // -------------------------------------------------------------------
  // Positional notation
  // -------------------------------------------------------------------

  function Pow(base: Radix, k: nat): nat {
    if k == 0 then 1 else base * Pow(base, k - 1)
  }

  /** The number written by `s` in base `base`, most significant first. */
  function Value(base: Radix, s: seq<nat>): nat {
    if |s| == 0 then 0 else Value(base, s[..|s| - 1]) * base + s[|s| - 1]
  }

  /** The last `k` base-`base` digits of `n`, most significant first. */
  function Digits(base: Radix, n: nat, k: nat): (s: seq<nat>)
    ensures |s| == k
  {
    if k == 0 then [] else Digits(base, n / base, k - 1) + [n % base]
  }

  lemma {:induction false} DigitsBounded(base: Radix, n: nat, k: nat)
    ensures forall i :: 0 <= i < k ==> Digits(base, n, k)[i] < base
  {
    if k == 0 {
    } else {
      DigitsBounded(base, n / base, k - 1);
    }
  }

  lemma {:induction false} PowAdd(base: Radix, i: nat, j: nat)
    ensures Pow(base, i + j) == Pow(base, i) * Pow(base, j)
  {
    if i == 0 {
    } else {
      PowAdd(base, i - 1, j);
      assert Pow(base, i + j) == base * Pow(base, i - 1 + j);
      MulAssoc(base, Pow(base, i - 1), Pow(base, j));
    }
  }

  lemma MulAssoc(a: int, b: int, c: int)
    ensures a * (b * c) == (a * b) * c
  {
  }

  /** 2^256 is twice 32^51: the top digit of a 52-digit text carries only one bit. */
  lemma CapacityIsTwiceTopDigit()
    ensures Pow(256, BYTES) == 2 * Pow(32, 51)
  {
    PowAdd(256, 5, 5); PowAdd(256, 10, 10); PowAdd(256, 20, 10); PowAdd(256, 30, 2);
    PowAdd(32, 8, 8); PowAdd(32, 16, 16); PowAdd(32, 32, 16); PowAdd(32, 48, 3);
    assert Pow(256, 5) == 1099511627776 by { PowAdd(256, 2, 3); }
    assert Pow(32, 8) == 1099511627776 by { PowAdd(32, 4, 4); assert Pow(32, 4) == 1048576; }
    assert Pow(256, 2) == 65536;
    assert Pow(32, 3) == 32768;
    var q := Pow(256, 30);
    assert q == Pow(32, 48);
    assert Pow(256, 32) == q * 65536;
    assert Pow(32, 51) == q * 32768;
  }

  lemma {:induction false} ValueBound(base: Radix, s: seq<nat>)
    requires forall i :: 0 <= i < |s| ==> s[i] < base
    ensures Value(base, s) < Pow(base, |s|)
  {
    if |s| == 0 {
    } else {
      var t := s[..|s| - 1];
      ValueBound(base, t);
      assert Value(base, t) * base <= (Pow(base, |t|) - 1) * base;
      assert Pow(base, |s|) == base * Pow(base, |t|);
    }
  }

  lemma ShiftColumn(x: nat, p: nat, v: nat, base: nat, d: nat)
    ensures (x * p + v) * base + d == x * (base * p) + (v * base + d)
  {
    assert (x * p) * base == x * (base * p);
  }

  lemma {:induction false} ValueCons(base: Radix, x: nat, s: seq<nat>)
    ensures Value(base, [x] + s) == x * Pow(base, |s|) + Value(base, s)
  {
    if |s| == 0 {
      assert ([x] + s)[..0] == [];
    } else {
      var t := s[..|s| - 1];
      assert ([x] + s)[..|s|] == [x] + t;
      ValueCons(base, x, t);
      ShiftColumn(x, Pow(base, |t|), Value(base, t), base, s[|s| - 1]);
    }
  }

  /** Writing the value of a digit string gives the digit string back. */
  lemma {:induction false} DigitsOfValue(base: Radix, s: seq<nat>)
    requires forall i :: 0 <= i < |s| ==> s[i] < base
    ensures Digits(base, Value(base, s), |s|) == s
  {
    if |s| == 0 {
    } else {
      var t, d := s[..|s| - 1], s[|s| - 1];
      DigitsOfValue(base, t);
      DivMod(base, Value(base, t), d);
      assert s == t + [d];
    }
  }

  lemma DivMod(base: Radix, q: nat, d: nat)
    requires d < base
    ensures (q * base + d) / base == q && (q * base + d) % base == d
  {
    if base == 32 {
    } else {
    }
  }

  /** Reading written digits gives the number back, when it fits. */
  lemma {:induction false} ValueOfDigits(base: Radix, n: nat, k: nat)
    requires n < Pow(base, k)
    ensures Value(base, Digits(base, n, k)) == n
  {
    if k == 0 {
    } else {
      assert n / base < Pow(base, k - 1) by {
        if n / base >= Pow(base, k - 1) {
          assert base * (n / base) >= base * Pow(base, k - 1);
        }
      }
      ValueOfDigits(base, n / base, k - 1);
      var s := Digits(base, n, k);
      assert s[..k - 1] == Digits(base, n / base, k - 1);
    }
  }

  // -------------------------------------------------------------------
  // Characters
  // -------------------------------------------------------------------

  /** The comparison the decoder makes: a character is cut to its low byte first. */
  function Truncate(c: char): char {
    (c as int % 256) as char
  }

  function IndexIn(c: char, alphabet: string): (i: int)
    ensures -1 <= i < |alphabet|
    ensures i >= 0 ==> alphabet[i] == c
    ensures i < 0 ==> c !in alphabet
  {
    if |alphabet| == 0 then -1
    else if alphabet[|alphabet| - 1] == c && c !in alphabet[..|alphabet| - 1] then |alphabet| - 1
    else IndexIn(c, alphabet[..|alphabet| - 1])
  }

  predicate IsDigit(c: char) {
    Truncate(c) in ALPHABET
  }

  function DigitOf(c: char): (d: nat)
    requires IsDigit(c)
    ensures d < 32 && Letter(d) == Truncate(c)
  {
    IndexIn(Truncate(c), ALPHABET)
  }

  function DigitsOf(s: string): (d: seq<nat>)
    requires forall i :: 0 <= i < |s| ==> IsDigit(s[i])
    ensures |d| == |s| && forall i :: 0 <= i < |s| ==> d[i] == DigitOf(s[i])
  {
    seq(|s|, i requires 0 <= i < |s| => DigitOf(s[i]))
  }

  /** The letter for a digit. */
  function Letter(d: nat): char {
    if d < 32 then ALPHABET[d] else '0'
  }

  function TextOf(d: seq<nat>): (s: string)
    ensures |s| == |d| && forall i :: 0 <= i < |d| ==> s[i] == Letter(d[i])
  {
    seq(|d|, i requires 0 <= i < |d| => Letter(d[i]))
  }

  /** The alphabet is listed in increasing ASCII order. */
  lemma Increasing(k: nat)
    requires k < 31
    ensures '0' <= ALPHABET[k] < ALPHABET[k + 1] <= 'z'
  {
  }

  lemma {:induction false} Ordered(i: nat, j: nat)
    requires i < j < 32
    ensures '0' <= ALPHABET[i] < ALPHABET[j] <= 'z'
    decreases j
  {
    Increasing(j - 1);
    hide ALPHABET;
    if i < j - 1 {
      Ordered(i, j - 1);
    }
  }

  lemma LowLetters()
    ensures ALPHABET[0] == '0' && ALPHABET[1] == '1'
  {
  }

  lemma AlphabetDistinct(i: nat, j: nat)
    requires i < 32 && j < 32 && ALPHABET[i] == ALPHABET[j]
    ensures i == j
  {
    hide ALPHABET;
    if i < j {
      Ordered(i, j);
    } else if j < i {
      Ordered(j, i);
    }
  }

  lemma LetterIs(i: nat)
    requires i < 32
    ensures Letter(i) == ALPHABET[i]
  {
  }

  /** The thirty-two letters are distinct. */
  lemma Distinct(i: nat, j: nat)
    requires i < 32 && j < 32 && Letter(i) == Letter(j)
    ensures i == j
  {
    hide ALPHABET, Letter;
    LetterIs(i);
    LetterIs(j);
    AlphabetDistinct(i, j);
  }

  /** Only digits 0 and 1 are written '0' and '1'. */
  lemma LowDigits(i: nat)
    requires i < 32
    ensures (Letter(i) == '0' <==> i == 0) && (Letter(i) == '1' <==> i == 1)
  {
    LowLetters();
    hide ALPHABET;
    assert Letter(0) == '0' && Letter(1) == '1';
    if Letter(i) == '0' { Distinct(i, 0); }
    if Letter(i) == '1' { Distinct(i, 1); }
  }

  /** The letters are plain ASCII, so cutting them to one byte changes nothing. */
  lemma LetterIsAscii(i: nat)
    requires i < 32
    ensures Letter(i) as int < 128 && Truncate(Letter(i)) == Letter(i)
  {
    hide ALPHABET;
    if i > 0 { Ordered(0, i); } else { Ordered(0, 1); }
  }

  lemma DigitOfLetter(d: nat)
    requires d < 32
    ensures IsDigit(Letter(d)) && DigitOf(Letter(d)) == d && Letter(d) as int < 128
  {
    LetterIsAscii(d);
    assert Letter(d) == ALPHABET[d];
    hide ALPHABET;
    Distinct(DigitOf(Letter(d)), d);
  }

  lemma DigitsOfText(d: seq<nat>)
    requires forall i :: 0 <= i < |d| ==> d[i] < 32
    ensures AllDigits(TextOf(d)) && Ascii(TextOf(d))
    ensures DigitsOf(TextOf(d)) == d
  {
    hide ALPHABET;
    forall i | 0 <= i < |d|
      ensures IsDigit(TextOf(d)[i]) && DigitOf(TextOf(d)[i]) == d[i] && TextOf(d)[i] as int < 128
    {
      DigitOfLetter(d[i]);
    }
  }

  // -------------------------------------------------------------------
  // What the codec computes
  // -------------------------------------------------------------------

  predicate IsBlock(bytes: seq<nat>) {
    |bytes| == BYTES && forall i :: 0 <= i < BYTES ==> bytes[i] < 256
  }

  /** The 52 base-32 digits of the 256-bit value of `bytes`. */
  function Encoded(bytes: seq<nat>): (s: string)
    ensures |s| == ENCODED_LEN
  {
    TextOf(Digits(32, Value(256, bytes), ENCODED_LEN))
  }

  predicate AllDigits(s: string) {
    forall i :: 0 <= i < |s| ==> IsDigit(s[i])
  }

  predicate Ascii(s: string) {
    forall i :: 0 <= i < |s| ==> s[i] as int < 128
  }

  /** `r` is what the decoder must answer for `s`: every error case, and the value. */
  ghost predicate DecodesTo(s: string, r: Result<seq<nat>, DecodeError>) {
    match r
    case Err(WrongLength(n)) => |s| != ENCODED_LEN && n == |s|
    case Err(InvalidChar(c, at)) =>
      && |s| == ENCODED_LEN && at < |s| && s[at] == c && !IsDigit(c)
      && (forall i :: 0 <= i < at ==> IsDigit(s[i]))
    case Err(Overflow) =>
      |s| == ENCODED_LEN && AllDigits(s) && Value(32, DigitsOf(s)) >= Pow(256, BYTES)
    case Ok(bytes) =>
      && |s| == ENCODED_LEN && AllDigits(s)
      && IsBlock(bytes) && Value(256, bytes) == Value(32, DigitsOf(s))
  }

  // -------------------------------------------------------------------
  // The codec
  // -------------------------------------------------------------------

  /** One long division of the byte string by 32, in place. */
  method DivideBy32(num: array<byte>) returns (rem: u16)
    requires num.Length == BYTES
    modifies num
    ensures rem < 32
    ensures Value(256, num[..]) == Value(256, old(num[..])) / 32
    ensures rem == Value(256, old(num[..])) % 32
  {
    rem := 0;
    ghost var was := num[..];
    for j := 0 to num.Length
      invariant rem < 32
      invariant num[j..] == was[j..]
      invariant Value(256, num[..j]) * 32 + rem == Value(256, was[..j])
    {
      var cur: u16 := rem * 256 + num[j];
      assert cur <= 8191;
      ghost var before := num[..j];
      assert num[j] == was[j] by { assert num[j..][0] == was[j..][0]; }
      num[j] := cur / 32;
      rem := cur % 32;
      assert num[..j + 1][..j] == before;
      assert was[..j + 1][..j] == was[..j];
      assert num[..j + 1][j] == cur / 32;
      assert num[j + 1..] == was[j..][1..];
    }
    assert num[..num.Length] == num[..] && was[..num.Length] == was;
    DivMod(32, Value(256, num[..]), rem);
  }

  method Encode(bytes: seq<byte>) returns (s: string)
    requires |bytes| == BYTES
    ensures s == Encoded(bytes)
  {
    var num := new byte[BYTES](i requires 0 <= i < BYTES => bytes[i]);
    assert num[..] == bytes;
    assert |ALPHABET| == 32;
    hide ALPHABET, Value;
    var digits := new char[ENCODED_LEN](_ => '0');
    var slot := ENCODED_LEN;
    ghost var all := Digits(32, Value(256, bytes), ENCODED_LEN);
    while slot > 0
      invariant 0 <= slot <= ENCODED_LEN
      invariant Digits(32, Value(256, num[..]), slot) == all[..slot]
      invariant forall i :: slot <= i < ENCODED_LEN ==> digits[i] == Letter(all[i])
    {
      slot := slot - 1;
      ghost var v := Value(256, num[..]);
      var rem := DivideBy32(num);
      assert all[..slot + 1] == Digits(32, v / 32, slot) + [v % 32];
      assert all[slot] == all[..slot + 1][slot] == rem;
      assert all[..slot] == all[..slot + 1][..slot];
      digits[slot] := ALPHABET[rem];
      assert ALPHABET[rem] == Letter(rem);
    }
    s := digits[..];
  }

  /** One column of the multiplication: what the new byte and the new carry are worth. */
  lemma Column(b: nat, c0: nat, p: nat, rest: nat, digit: nat, low: nat)
    requires rest * 32 + digit == c0 * p + low
    ensures (b * p + rest) * 32 + digit
         == ((b * 32 + c0) / 256) * (256 * p) + ((b * 32 + c0) % 256) * p + low
  {
    var cur := b * 32 + c0;
    var q, r := cur / 256, cur % 256;
    assert cur == q * 256 + r;
    calc {
      (b * p + rest) * 32 + digit;
      (b * 32) * p + c0 * p + low;
      cur * p + low;
      (q * 256) * p + r * p + low;
      q * (256 * p) + r * p + low;
    }
  }

  /** `before` times 32 plus `digit` is `after`, with `carry` overflowing `size` bytes. */
  ghost predicate Carries(before: nat, digit: nat, carry: nat, size: nat, after: nat) {
    before * 32 + digit == carry * Pow(256, size) + after
  }

  /** Multiply the byte string by 32 and add a digit, in place; `carry` is what no longer fits. */
  method MultiplyAdd(acc: array<byte>, digit: u16) returns (carry: u16)
    requires digit < 32
    modifies acc
    ensures carry < 32
    ensures Carries(Value(256, old(acc[..])), digit, carry, acc.Length, Value(256, acc[..]))
  {
    carry := digit;
    ghost var was := acc[..];
    var j := acc.Length;
    assert acc[j..] == [] && was[j..] == [];
    while j > 0
      invariant 0 <= j <= acc.Length
      invariant carry < 32
      invariant acc[..j] == was[..j]
      invariant Value(256, was[j..]) * 32 + digit == carry * Pow(256, acc.Length - j) + Value(256, acc[j..])
    {
      ghost var low, lowWas := acc[j..], was[j..];
      ghost var p := Pow(256, acc.Length - j);
      j := j - 1;
      assert acc[j] == was[j] by { assert acc[..j + 1][j] == was[..j + 1][j]; }
      Column(was[j], carry, p, Value(256, lowWas), digit, Value(256, low));
      var cur: u16 := acc[j] * 32 + carry;
      assert cur <= 8191;
      acc[j] := cur % 256;
      carry := cur / 256;
      assert acc[j..] == [cur % 256] + low;
      assert was[j..] == [was[j]] + lowWas;
      ValueCons(256, cur % 256, low);
      ValueCons(256, was[j], lowWas);
      assert acc[..j] == was[..j + 1][..j];
      assert Pow(256, acc.Length - j) == 256 * p;
    }
    assert acc[0..] == acc[..] && was[0..] == was;
  }

  method Decode(s: string) returns (r: Result<seq<nat>, DecodeError>)
    ensures DecodesTo(s, r)
  {
    if |s| != ENCODED_LEN {
      return Err(WrongLength(|s|));
    }
    assert |ALPHABET| == 32;
    NoDigits(s);
    hide ALPHABET, IndexIn, Truncate, Pow, Value, DecodesTo, IsDigit, AllDigits, DigitOf, DigitsOf, Carries;
    var acc := new byte[BYTES](_ => 0);
    ZeroValue(acc[..]);
    for i := 0 to |s|
      invariant AllDigits(s[..i])
      invariant Value(256, acc[..]) == Value(32, DigitsOf(s[..i]))
    {
      var at := IndexIn(Truncate(s[i]), ALPHABET);
      LooksUp(s, i);
      if at < 0 {
        return Err(InvalidChar(s[i], i));
      }
      ghost var before := Value(256, acc[..]);
      var carry := MultiplyAdd(acc, at);
      if carry != 0 {
        OverflowOnlyAtEnd(s, i, before, carry, Value(256, acc[..]));
        return Err(Overflow);
      }
      NextDigit(s, i, before, Value(256, acc[..]));
    }
    assert s[..|s|] == s;
    Decoded(s, acc[..]);
    r := Ok(acc[..]);
  }

  lemma NoDigits(s: string)
    ensures AllDigits(s[..0]) && Value(32, DigitsOf(s[..0])) == 0
  {
  }

  lemma Decoded(s: string, bytes: seq<byte>)
    requires |s| == ENCODED_LEN && AllDigits(s) && |bytes| == BYTES
    requires Value(256, bytes) == Value(32, DigitsOf(s))
    ensures DecodesTo(s, Ok(bytes))
  {
    hide Value, IsDigit, DigitOf;
  }

  /** The lookup finds a digit exactly for digits; the first character without one is the error. */
  lemma LooksUp(s: string, i: nat)
    requires |s| == ENCODED_LEN && i < |s| && AllDigits(s[..i])
    ensures IsDigit(s[i]) <==> IndexIn(Truncate(s[i]), ALPHABET) >= 0
    ensures !IsDigit(s[i]) ==> DecodesTo(s, Err(InvalidChar(s[i], i)))
  {
    hide Truncate;
    forall k | 0 <= k < i ensures IsDigit(s[k]) {
      assert IsDigit(s[..i][k]);
    }
  }

  lemma ReadDigit(s: string, i: nat)
    requires i < |s| && AllDigits(s[..i]) && IsDigit(s[i])
    ensures AllDigits(s[..i + 1])
    ensures Value(32, DigitsOf(s[..i + 1])) == Value(32, DigitsOf(s[..i])) * 32 + DigitOf(s[i])
  {
    hide IsDigit, DigitOf, Pow;
    assert forall k :: 0 <= k < i ==> s[..i][k] == s[..i + 1][k];
    assert DigitsOf(s[..i + 1])[..i] == DigitsOf(s[..i]);
  }

  /** Reading one more character multiplies the value by 32 and adds the digit. */
  lemma NextDigit(s: string, i: nat, before: nat, after: nat)
    requires i < |s| && AllDigits(s[..i]) && IsDigit(s[i]) && before == Value(32, DigitsOf(s[..i]))
    requires Carries(before, DigitOf(s[i]), 0, BYTES, after)
    ensures AllDigits(s[..i + 1]) && Value(32, DigitsOf(s[..i + 1])) == after
  {
    ReadDigit(s, i);
    hide Pow, Value, DigitsOf, AllDigits, IsDigit, DigitOf;
  }

  lemma {:induction false} ZeroValue(s: seq<nat>)
    requires forall i :: 0 <= i < |s| ==> s[i] == 0
    ensures Value(256, s) == 0
  {
    if |s| == 0 {
    } else {
      ZeroValue(s[..|s| - 1]);
    }
  }

  /** A carry out of the 32 bytes can appear only while the 52nd digit is added. */
  lemma OverflowOnlyAtEnd(s: string, i: nat, before: nat, carry: nat, rest: nat)
    requires |s| == ENCODED_LEN && i < |s| && carry > 0
    requires AllDigits(s[..i]) && IsDigit(s[i]) && before == Value(32, DigitsOf(s[..i]))
    requires Carries(before, DigitOf(s[i]), carry, BYTES, rest)
    ensures i == ENCODED_LEN - 1
    ensures DecodesTo(s, Err(Overflow))
  {
    hide ALPHABET, IsDigit, DigitOf, DigitsOf, Value, Pow;
    ReadDigit(s, i);
    ValueBound(32, DigitsOf(s[..i + 1]));
    CapacityIsTwiceTopDigit();
    AtLeastOnce(carry, Pow(256, BYTES), rest);
    if i < ENCODED_LEN - 1 {
      PowMonotone(32, i + 1, 51);
    } else {
      assert s[..i + 1] == s;
    }
  }

  lemma AtLeastOnce(times: nat, unit: nat, rest: nat)
    requires times > 0
    ensures times * unit + rest >= unit
  {
    assert times * unit == (times - 1) * unit + unit;
  }

  lemma {:induction false} PowMonotone(base: Radix, i: nat, j: nat)
    requires i <= j
    ensures 1 <= Pow(base, i) <= Pow(base, j)
    decreases j
  {
    if j == 0 {
    } else if i == j {
      PowMonotone(base, i - 1, j - 1);
    } else {
      PowMonotone(base, i, j - 1);
    }
  }

  // -------------------------------------------------------------------
  // What the codec promises
  // -------------------------------------------------------------------

  /** The answer is a function of the text: `DecodesTo` pins it down completely. */
  lemma DecodingIsUnique(s: string, r1: Result<seq<nat>, DecodeError>, r2: Result<seq<nat>, DecodeError>)
    requires DecodesTo(s, r1) && DecodesTo(s, r2)
    ensures r1 == r2
  {
    hide ALPHABET, IsDigit, DigitOf, DigitsOf, Pow, Value, Digits;
    if r1.Ok? && r2.Ok? {
      DigitsOfValue(256, r1.value);
      DigitsOfValue(256, r2.value);
    } else if r1.Ok? && r2 == Err(Overflow) {
      ValueBound(256, r1.value);
    } else if r2.Ok? && r1 == Err(Overflow) {
      ValueBound(256, r2.value);
    }
  }

  /** Encoding writes the value exactly, and decoding it gives the bytes back. */
  lemma DecodeAfterEncode(bytes: seq<nat>)
    requires IsBlock(bytes)
    ensures AllDigits(Encoded(bytes)) && Ascii(Encoded(bytes))
    ensures Value(32, DigitsOf(Encoded(bytes))) == Value(256, bytes)
    ensures DecodesTo(Encoded(bytes), Ok(bytes))
  {
    hide ALPHABET, IsDigit, DigitOf, DigitsOf, TextOf;
    var n := Value(256, bytes);
    ValueBound(256, bytes);
    CapacityIsTwiceTopDigit();
    assert Pow(32, 52) == 32 * Pow(32, 51);
    ValueOfDigits(32, n, ENCODED_LEN);
    DigitsBounded(32, n, ENCODED_LEN);
    DigitsOfText(Digits(32, n, ENCODED_LEN));
  }

  /** The value of a 52-digit text fits in 32 bytes iff its first digit is 0 or 1. */
  lemma FitsIffTopBit(d: seq<nat>)
    requires |d| == ENCODED_LEN && forall i :: 0 <= i < |d| ==> d[i] < 32
    ensures Value(32, d) < Pow(256, BYTES) <==> d[0] <= 1
  {
    var top, low, unit := d[0], Value(32, d[1..]), Pow(32, 51);
    assert d == [top] + d[1..];
    ValueCons(32, top, d[1..]);
    ValueBound(32, d[1..]);
    CapacityIsTwiceTopDigit();
    hide Pow, Value;
    TopDigit(top, unit, low);
  }

  lemma TopDigit(top: nat, unit: nat, low: nat)
    requires low < unit
    ensures top * unit + low < 2 * unit <==> top <= 1
  {
    if top >= 2 {
      assert top * unit == 2 * unit + (top - 2) * unit;
    }
  }

  /** A text is accepted iff it has 52 alphabet characters of which the first is 0 or 1. */
  lemma AcceptedTexts(s: string)
    ensures (exists b :: DecodesTo(s, Ok(b)))
       <==> |s| == ENCODED_LEN && AllDigits(s) && DigitOf(s[0]) <= 1
  {
    hide ALPHABET, IsDigit, DigitOf, DigitsOf;
    if |s| == ENCODED_LEN && AllDigits(s) {
      var d := DigitsOf(s);
      FitsIffTopBit(d);
      var v := Value(32, d);
      if d[0] <= 1 {
        var b := Digits(256, v, BYTES);
        ValueOfDigits(256, v, BYTES);
        DigitsBounded(256, v, BYTES);
        assert DecodesTo(s, Ok(b));
      } else {
        forall b | DecodesTo(s, Ok(b)) ensures false {
          ValueBound(256, b);
        }
      }
    }
  }

  /** Re-encoding an accepted text gives the text iff it is plain ASCII: the decoder cuts each
      character to one byte before looking it up. */
  lemma EncodeAfterDecode(s: string, bytes: seq<nat>)
    requires DecodesTo(s, Ok(bytes))
    ensures Encoded(bytes) == seq(|s|, i requires 0 <= i < |s| => Truncate(s[i]))
    ensures Encoded(bytes) == s <==> Ascii(s)
  {
    hide ALPHABET, IsDigit, DigitOf, Value, Letter;
    var d := DigitsOf(s);
    DigitsOfValue(32, d);
    var e := Encoded(bytes);
    assert e == TextOf(d);
    forall i | 0 <= i < |s| ensures e[i] == Truncate(s[i]) && Truncate(s[i]) as int < 128 {
      DigitOfLetter(d[i]);
    }
    if Ascii(s) {
      assert forall i :: 0 <= i < |s| ==> Truncate(s[i]) == s[i];
    }
    if e == s {
      assert forall i :: 0 <= i < |s| ==> s[i] == e[i];
    }
  }

  /** The validation rule of generation ids: accepted, and the first byte is '0' or '1'. */
  predicate IsCanonical(s: string) {
    && |s| == ENCODED_LEN && AllDigits(s) && DigitOf(s[0]) <= 1
    && (s[0] == '0' || s[0] == '1')
  }

  predicate InAlphabet(c: char) {
    c in ALPHABET
  }

  /** The documented pattern ^[01][0-9abcdefghjkmnpqrstvwxyz]{51}$. */
  predicate MatchesPattern(s: string) {
    && |s| == ENCODED_LEN && (s[0] == '0' || s[0] == '1')
    && forall i :: 0 <= i < |s| ==> InAlphabet(s[i])
  }

  method CheckCanonical(s: string) returns (ok: bool)
    ensures ok == IsCanonical(s)
  {
    var r := Decode(s);
    hide ALPHABET, IsDigit, DigitOf, DigitsOf;
    AcceptedTexts(s);
    if r.Ok? {
      assert DecodesTo(s, Ok(r.value));
    } else {
      forall b | DecodesTo(s, Ok(b)) ensures false {
        DecodingIsUnique(s, r, Ok(b));
      }
    }
    ok := r.Ok? && (s[0] == '0' || s[0] == '1');
  }

  /** A character is in the alphabet iff it is a digit to the decoder and plain ASCII. */
  lemma AlphabetIsAsciiDigits(c: char)
    ensures InAlphabet(c) <==> IsDigit(c) && c as int < 128
    ensures (c == '0' || c == '1') ==> IsDigit(c) && DigitOf(c) <= 1
  {
    if InAlphabet(c) {
      var k :| 0 <= k < 32 && ALPHABET[k] == c;
      DigitOfLetter(k);
    }
    if c as int < 128 {
      assert Truncate(c) == c;
    }
    LowDigits(0);
    LowDigits(1);
    DigitOfLetter(0);
    DigitOfLetter(1);
  }

  /** The check agrees with the documented pattern iff the text is ASCII or fails the check. */
  lemma CanonicalMatchesPattern(s: string)
    ensures MatchesPattern(s) <==> IsCanonical(s) && Ascii(s)
  {
    hide ALPHABET, IsDigit, DigitOf, InAlphabet;
    forall i | 0 <= i < |s|
      ensures InAlphabet(s[i]) <==> IsDigit(s[i]) && s[i] as int < 128
      ensures (s[i] == '0' || s[i] == '1') ==> IsDigit(s[i]) && DigitOf(s[i]) <= 1
    {
      AlphabetIsAsciiDigits(s[i]);
    }
  }

  /** A text of fifty-one zeros and the letter U+0130 passes the check and misses the pattern. */
  lemma NonAsciiPassesCheck()
    ensures exists s :: IsCanonical(s) && !MatchesPattern(s)
  {
    hide ALPHABET, InAlphabet, MatchesPattern;
    var c := '\U{0130}';
    var s := seq(ENCODED_LEN, i => if i == 51 then c else '0');
    AlphabetIsAsciiDigits('0');
    assert IsDigit(c) by { assert Truncate(c) == Truncate('0'); }
    CanonicalMatchesPattern(s);
    hide IsDigit, DigitOf;
    assert s[51] as int >= 128;
    assert IsCanonical(s);
  }

  /** Every encoded block passes the check, so fresh ids and digests are always canonical. */
  lemma EncodedIsCanonical(bytes: seq<nat>)
    requires IsBlock(bytes)
    ensures IsCanonical(Encoded(bytes)) && MatchesPattern(Encoded(bytes))
  {
    hide ALPHABET, IsDigit, DigitOf, InAlphabet, Letter, Value, Pow, Digits, DecodesTo, Encoded;
    var s := Encoded(bytes);
    DecodeAfterEncode(bytes);
    AcceptedTexts(s);
    var d := DigitOf(s[0]);
    assert Truncate(s[0]) == s[0];
    assert Letter(d) == s[0];
    LowDigits(d);
    CanonicalMatchesPattern(s);
  }

  /** The code of letter `k`: the digits, then runs of small letters. */
  function CodeAt(k: nat): int {
    if k < 10 then '0' as int + k
    else if k < 18 then 'a' as int + (k - 10)
    else if k < 20 then 'j' as int + (k - 18)
    else if k < 22 then 'm' as int + (k - 20)
    else if k < 27 then 'p' as int + (k - 22)
    else 'v' as int + (k - 27)
  }

  lemma LetterCode(k: nat)
    requires k < 32
    ensures ALPHABET[k] as int == CodeAt(k)
  {
  }

  predicate IsLetterCode(n: int) {
    || '0' as int <= n <= '9' as int
    || ('a' as int <= n <= 'z' as int && n != 'i' as int && n != 'l' as int && n != 'o' as int && n != 'u' as int)
  }

  /** Where a code stands in the alphabet. */
  function PlaceOf(n: int): (k: nat)
    requires IsLetterCode(n)
    ensures k < 32 && CodeAt(k) == n
  {
    if n <= '9' as int then n - '0' as int
    else if n <= 'h' as int then n - 'a' as int + 10
    else if n <= 'k' as int then n - 'j' as int + 18
    else if n <= 'n' as int then n - 'm' as int + 20
    else if n <= 't' as int then n - 'p' as int + 22
    else n - 'v' as int + 27
  }

  lemma CodesAreLetters(k: nat)
    requires k < 32
    ensures IsLetterCode(CodeAt(k))
  {
  }

  /** The alphabet is the digits and the small letters but i, l, o and u, in this order. */
  lemma AlphabetExactly(c: char)
    ensures InAlphabet(c) <==> '0' <= c <= '9' || ('a' <= c <= 'z' && c != 'i' && c != 'l' && c != 'o' && c != 'u')
    ensures forall k: nat :: k < 32 ==> ALPHABET[k] as int == CodeAt(k)
  {
    forall k: nat | k < 32 ensures ALPHABET[k] as int == CodeAt(k) {
      LetterCode(k);
    }
    hide ALPHABET, CodeAt;
    if IsLetterCode(c as int) {
      assert ALPHABET[PlaceOf(c as int)] == c;
    }
    if InAlphabet(c) {
      var k :| 0 <= k < 32 && ALPHABET[k] == c;
      CodesAreLetters(k);
    }
  }
}
