/** IPv4 addresses and networks as 32-bit numbers, and their text (section 3.1 of RFC 4632). */
module Ipv4 {
  import opened Outcomes
  import opened Text

  type Addr = a: nat | a < 0x1_0000_0000 witness 0

  type Prefix = p: nat | p <= 32 witness 32

  datatype Net = Net(addr: Addr, prefix: Prefix)

  function Pow2(k: nat): nat {
    if k == 0 then 1 else 2 * Pow2(k - 1)
  }

  /** The number of addresses in a network of this prefix length. */
  function Size(p: Prefix): nat {
    Pow2(32 - p)
  }

  /** The address with its host bits cleared. */
  function Network(n: Net): (a: nat)
    ensures a <= n.addr
  {
    Pow2Positive(32 - n.prefix);
    RemainderFits(n.addr, Size(n.prefix));
    n.addr - n.addr % Size(n.prefix)
  }

  lemma RemainderFits(a: nat, m: nat)
    requires m > 0
    ensures 0 <= a % m <= a
  {
    if a < m {
      assert a % m == a;
    }
  }

  function Broadcast(n: Net): int {
    Network(n) + Size(n.prefix) - 1
  }

  predicate IsCanonical(n: Net) {
    n.addr == Network(n)
  }

  datatype Range = Range(lo: int, hi: int)

  function RangeOf(n: Net): Range {
    Range(Network(n), Broadcast(n))
  }

  predicate Overlap(a: Range, b: Range) {
    a.lo <= b.hi && b.lo <= a.hi
  }

  predicate Contains(r: Range, a: int) {
    r.lo <= a <= r.hi
  }

  /** Ranges overlap iff some address is in both. */
  lemma OverlapMeansShared(a: Range, b: Range)
    requires a.lo <= a.hi && b.lo <= b.hi
    ensures Overlap(a, b) <==> exists x :: Contains(a, x) && Contains(b, x)
  {
    if Overlap(a, b) {
      var x := if a.lo <= b.lo then b.lo else a.lo;
      assert Contains(a, x) && Contains(b, x);
    }
  }

  lemma {:induction false} Pow2Positive(k: nat)
    ensures Pow2(k) >= 1
  {
    if k > 0 {
      Pow2Positive(k - 1);
    }
  }

  lemma RangeNonEmpty(n: Net)
    ensures RangeOf(n).lo <= RangeOf(n).hi
  {
    Pow2Positive(32 - n.prefix);
  }

  function Host(a: Addr): Net {
    Net(a, 32)
  }

  lemma HostRange(a: Addr)
    ensures RangeOf(Host(a)) == Range(a, a) && IsCanonical(Host(a))
  {
    assert Pow2(0) == 1;
  }

  // -------------------------------------------------------------------
  // Text
  // -------------------------------------------------------------------

  function Octet(a: Addr, i: nat): (o: nat)
    requires i < 4
    ensures o < 256
  {
    if i == 0 then a / 0x100_0000
    else if i == 1 then a / 0x1_0000 % 256
    else if i == 2 then a / 0x100 % 256
    else a % 256
  }

  function FromOctets(o0: nat, o1: nat, o2: nat, o3: nat): Addr
    requires o0 < 256 && o1 < 256 && o2 < 256 && o3 < 256
  {
    o0 * 0x100_0000 + o1 * 0x1_0000 + o2 * 0x100 + o3
  }

  lemma OctetsOf(a: Addr)
    ensures FromOctets(Octet(a, 0), Octet(a, 1), Octet(a, 2), Octet(a, 3)) == a
  {
  }

  function PrintAddr(a: Addr): string {
    PrintNat(Octet(a, 0)) + "." + PrintNat(Octet(a, 1)) + "." + PrintNat(Octet(a, 2)) + "." + PrintNat(Octet(a, 3))
  }

  function PrintNet(n: Net): string {
    PrintAddr(n.addr) + "/" + PrintNat(n.prefix)
  }

  /** The length of the run of digits that `s` starts with. */
  function DigitRun(s: string): (n: nat)
    ensures n <= |s| && AllDecimal(s[..n]) && (n < |s| ==> !IsDecimal(s[n]))
  {
    if |s| > 0 && IsDecimal(s[0]) then
      var n := DigitRun(s[1..]);
      assert s[..n + 1] == [s[0]] + s[1..][..n];
      n + 1
    else 0
  }

  /** Read a number of at most `maxDigits` digits that is less than `limit`. */
  function ReadNumber(s: string, maxDigits: nat, limit: nat): (r: Option<(nat, string)>)
    ensures r.Some? ==> r.value.0 < limit
  {
    var n := DigitRun(s);
    if n == 0 || n > maxDigits || Decimal(s[..n]) >= limit then None
    else Some((Decimal(s[..n]), s[n..]))
  }

  function Expect(s: string, c: char): Option<string> {
    if |s| > 0 && s[0] == c then Some(s[1..]) else None
  }

  /** A dotted-decimal octet after the first. */
  function ReadOctet(s: string): (r: Option<(nat, string)>)
    ensures r.Some? ==> r.value.0 < 256
  {
    match Expect(s, '.')
    case None => None
    case Some(rest) => ReadNumber(rest, 3, 256)
  }

  function ReadAddr(s: string): Option<(Addr, string)> {
    match ReadNumber(s, 3, 256)
    case None => None
    case Some((o0, s0)) =>
      match ReadOctet(s0)
      case None => None
      case Some((o1, s1)) =>
        match ReadOctet(s1)
        case None => None
        case Some((o2, s2)) =>
          match ReadOctet(s2)
          case None => None
          case Some((o3, s3)) => Some((FromOctets(o0, o1, o2, o3), s3))
  }

  function ParseNet(s: string): Option<Net> {
    match ReadAddr(s)
    case None => None
    case Some((a, rest)) =>
      match Expect(rest, '/')
      case None => None
      case Some(digits) =>
        match ReadNumber(digits, 2, 33)
        case Some((p, "")) => Some(Net(a, p))
        case _ => None
  }

  lemma {:induction false} DigitRunOf(digits: string, rest: string)
    requires AllDecimal(digits) && (|rest| > 0 ==> !IsDecimal(rest[0]))
    ensures DigitRun(digits + rest) == |digits|
  {
    var s := digits + rest;
    if |digits| > 0 {
      assert s[1..] == digits[1..] + rest;
      DigitRunOf(digits[1..], rest);
    } else {
      assert s == rest;
    }
  }

  lemma ReadPrinted(n: nat, rest: string, maxDigits: nat, limit: nat)
    requires |PrintNat(n)| <= maxDigits && n < limit && (|rest| > 0 ==> !IsDecimal(rest[0]))
    ensures ReadNumber(PrintNat(n) + rest, maxDigits, limit) == Some((n, rest))
  {
    PrintedNat(n);
    DigitRunOf(PrintNat(n), rest);
    assert (PrintNat(n) + rest)[..|PrintNat(n)|] == PrintNat(n);
  }

  lemma ReadPrintedOctet(o: nat, rest: string)
    requires o < 256 && (|rest| > 0 ==> !IsDecimal(rest[0]))
    ensures ReadOctet("." + (PrintNat(o) + rest)) == Some((o, rest))
  {
    assert ("." + (PrintNat(o) + rest))[1..] == PrintNat(o) + rest;
    PrintedLength(o);
    ReadPrinted(o, rest, 3, 256);
  }

  lemma ReadPrintedAddr(a: Addr, rest: string)
    requires |rest| > 0 ==> !IsDecimal(rest[0])
    ensures ReadAddr(PrintAddr(a) + rest) == Some((a, rest))
  {
    var o0, o1, o2, o3 := Octet(a, 0), Octet(a, 1), Octet(a, 2), Octet(a, 3);
    OctetsOf(a);
    var t3 := "." + (PrintNat(o3) + rest);
    var t2 := "." + (PrintNat(o2) + t3);
    var t1 := "." + (PrintNat(o1) + t2);
    assert PrintAddr(a) + rest == PrintNat(o0) + t1 by { DottedText(PrintNat(o0), PrintNat(o1), PrintNat(o2), PrintNat(o3), rest); }
    hide PrintNat, PrintAddr, ReadNumber, ReadOctet, Octet, FromOctets;
    ReadPrintedOctet(o3, rest);
    ReadPrintedOctet(o2, t3);
    ReadPrintedOctet(o1, t2);
    PrintedLength(o0);
    ReadPrinted(o0, t1, 3, 256);
  }

  lemma DottedText(a: string, b: string, c: string, d: string, rest: string)
    ensures (a + "." + b + "." + c + "." + d) + rest == a + ("." + (b + ("." + (c + ("." + (d + rest))))))
  {
  }

  /** Reading a printed network gives the network back. */
  lemma ParsePrintedNet(n: Net)
    ensures ParseNet(PrintNet(n)) == Some(n)
  {
    var tail := "/" + PrintNat(n.prefix);
    assert PrintNet(n) == PrintAddr(n.addr) + tail;
    ReadPrintedAddr(n.addr, tail);
    PrintedLength(n.prefix);
    ReadPrinted(n.prefix, "", 2, 33);
    assert PrintNat(n.prefix) + "" == PrintNat(n.prefix);
    assert tail[1..] == PrintNat(n.prefix);
  }

  /** A number in positional notation. */
  function Quad(p: nat, q: nat, r: nat, s: nat): Addr
    requires p < 256 && q < 256 && r < 256 && s < 256
  {
    p * 0x100_0000 + q * 0x1_0000 + r * 0x100 + s
  }

  lemma OctetsOfQuad(p: nat, q: nat, r: nat, s: nat)
    requires p < 256 && q < 256 && r < 256 && s < 256
    ensures var a := Quad(p, q, r, s); Octet(a, 0) == p && Octet(a, 1) == q && Octet(a, 2) == r && Octet(a, 3) == s
  {
    var a := Quad(p, q, r, s);
    assert a / 0x1_0000 == p * 0x100 + q && a / 0x100 == p * 0x1_0000 + q * 0x100 + r;
  }

  /** The octets are printed from the most significant to the least, and read so. */
  lemma DottedQuad(p: nat, q: nat, r: nat, s: nat, k: Prefix)
    requires p < 256 && q < 256 && r < 256 && s < 256
    ensures PrintAddr(Quad(p, q, r, s)) == PrintNat(p) + "." + PrintNat(q) + "." + PrintNat(r) + "." + PrintNat(s)
    ensures ParseNet(PrintNat(p) + "." + PrintNat(q) + "." + PrintNat(r) + "." + PrintNat(s) + "/" + PrintNat(k))
         == Some(Net(Quad(p, q, r, s), k))
  {
    OctetsOfQuad(p, q, r, s);
    hide PrintNat, ParseNet, Octet, Quad;
    ParsePrintedNet(Net(Quad(p, q, r, s), k));
  }

  /** Digits too are printed from the most significant on: 10.8.255.16/24. */
  lemma PrintedExample()
    ensures PrintNet(Net(0x0A08_FF10, 24)) == "10" + "." + "8" + "." + "255" + "." + "16" + "/" + "24"
  {
    assert PrintNat(10) == "10" && PrintNat(8) == "8" && PrintNat(16) == "16" && PrintNat(24) == "24";
    assert PrintNat(25) == "25";
    assert PrintNat(255) == "255";
    hide PrintNat, ParseNet, PrintAddr;
    DottedQuad(10, 8, 255, 16, 24);
  }

  predicate NetChar(c: char) {
    IsDecimal(c) || c == '.' || c == '/'
  }

  lemma PrintedNetChars(n: Net)
    ensures |PrintNet(n)| > 0 && forall i :: 0 <= i < |PrintNet(n)| ==> NetChar(PrintNet(n)[i])
    ensures Plain(PrintNet(n)) && Lacks(PrintNet(n), ',')
  {
    PrintedNat(Octet(n.addr, 0));
    PrintedNat(Octet(n.addr, 1));
    PrintedNat(Octet(n.addr, 2));
    PrintedNat(Octet(n.addr, 3));
    PrintedNat(n.prefix);
    hide PrintNat, Octet;
    assert forall i :: 0 <= i < |PrintNet(n)| ==> NetChar(PrintNet(n)[i]);
  }
}
