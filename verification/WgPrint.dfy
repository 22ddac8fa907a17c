/** The text form of a typed configuration, and the round trip through the strict reader. */
module WgPrint {
  import opened Outcomes
  import opened Text
  import opened Ipv4
  import opened Lib
  import opened Topology
  import opened WgQuick
  import Chars
  import Hostname

  // -------------------------------------------------------------------
  // Printing
  // -------------------------------------------------------------------

  function FieldLine(f: Field): string {
    f.key + " = " + f.value
  }

  function FieldLines(fields: seq<Field>): (lines: seq<string>)
    ensures |lines| == |fields|
    ensures forall i :: 0 <= i < |fields| ==> lines[i] == FieldLine(fields[i])
  {
    seq(|fields|, i requires 0 <= i < |fields| => FieldLine(fields[i]))
  }

  function Optional(key: string, value: Option<string>): seq<Field> {
    if value.Some? then [Field(key, value.value)] else []
  }

  function OptionalNumber(key: string, value: Option<u16>): seq<Field> {
    if value.Some? then [Field(key, PrintNat(value.value))] else []
  }

  function InterfaceFieldList(i: ParsedInterface): seq<Field> {
    [Field("PrivateKey", i.privateKey),
     Field("Address", PrintNet(Host(i.address))),
     Field("ListenPort", PrintNat(i.listenPort))]
    + (Optional("DNS", i.dns) + OptionalNumber("MTU", i.mtu))
  }

  function NetTexts(nets: seq<Net>): (texts: seq<string>)
    ensures |texts| == |nets| && forall i :: 0 <= i < |nets| ==> texts[i] == PrintNet(nets[i])
  {
    seq(|nets|, i requires 0 <= i < |nets| => PrintNet(nets[i]))
  }

  function PeerFieldList(p: ParsedPeer): seq<Field> {
    [Field("PublicKey", p.publicKey),
     Field("PresharedKey", p.presharedKey),
     Field("AllowedIPs", CommaList(NetTexts(p.allowedIps)))]
    + (Optional("Endpoint", p.endpoint) + OptionalNumber("PersistentKeepalive", p.persistentKeepalive))
  }

  function InterfaceLines(host: string, i: ParsedInterface): seq<string> {
    [BANNER, "# Hostname: " + host, "", "[Interface]"]
    + FieldLines(InterfaceFieldList(i))
  }

  function PeerLines(name: string, p: ParsedPeer): seq<string> {
    ["", "[Peer]", "# " + name] + FieldLines(PeerFieldList(p))
  }

  function AllPeerLines(names: seq<string>, peers: seq<ParsedPeer>): seq<string>
    requires |names| == |peers|
  {
    if |peers| == 0 then [] else PeerLines(names[0], peers[0]) + AllPeerLines(names[1..], peers[1..])
  }

  function Lines(host: string, names: seq<string>, c: ParsedConfig): seq<string>
    requires |names| == |c.peers|
  {
    InterfaceLines(host, c.interface) + AllPeerLines(names, c.peers)
  }

  /** The file for `host`, whose peers are called `names`. */
  function Print(host: string, names: seq<string>, c: ParsedConfig): string
    requires |names| == |c.peers|
  {
    Unlines(Lines(host, names, c))
  }

  // -------------------------------------------------------------------
  // Configurations worth printing
  // -------------------------------------------------------------------

  predicate InterfaceOk(lib: Library, i: ParsedInterface) {
    && lib.validKey(i.privateKey)
    && i.listenPort != 0
    && (i.dns.Some? ==> lib.parseIp(i.dns.value) == i.dns)
    && (i.mtu.Some? ==> i.mtu.value >= MIN_MTU)
  }

  predicate NetOk(n: Net) {
    Ipv4.IsCanonical(n) && n.prefix != 0
  }

  predicate NetsOk(nets: seq<Net>) {
    forall i :: 0 <= i < |nets| ==> NetOk(nets[i])
  }

  predicate PeerOk(lib: Library, p: ParsedPeer) {
    && lib.validKey(p.publicKey)
    && lib.validKey(p.presharedKey)
    && |p.allowedIps| > 0
    && NetsOk(p.allowedIps)
    && (p.endpoint.Some? ==> EndpointOk(lib, p.endpoint.value))
  }

  /** Two different peers can be told apart by key and by address. */
  predicate Separate(p: ParsedPeer, q: ParsedPeer) {
    p.publicKey != q.publicKey && !PeersOverlap(p, q)
  }

  /** No peer is the local node, no two peers share a key or an address. */
  ghost predicate Unambiguous(lib: Library, c: ParsedConfig) {
    && (forall i :: 0 <= i < |c.peers| ==>
          c.peers[i].publicKey != lib.publicOf(c.interface.privateKey) && !CoversAddress(c.peers[i], c.interface.address))
    && forall i, k :: 0 <= i < k < |c.peers| ==> Separate(c.peers[i], c.peers[k])
  }

  ghost predicate Printable(lib: Library, c: ParsedConfig) {
    && InterfaceOk(lib, c.interface)
    && (forall i :: 0 <= i < |c.peers| ==> PeerOk(lib, c.peers[i]))
    && Unambiguous(lib, c)
  }

  // -------------------------------------------------------------------
  // Reading lines back
  // -------------------------------------------------------------------

  /** Text that survives as the value of a directive. */
  predicate IsValue(v: string) {
    |v| > 0 && Tight(v) && forall i :: 0 <= i < |v| ==> !Chars.IsControl(v[i])
  }

  predicate IsName(k: string) {
    Plain(k) && Lacks(k, '=') && k[0] != '#' && k[0] != '['
  }

  predicate FieldIsClean(f: Field) {
    IsName(f.key) && IsValue(f.value)
  }

  lemma FieldLineText(f: Field)
    requires FieldIsClean(f)
    ensures var line := FieldLine(f);
            && |line| > 0 && Tight(line) && line[0] == f.key[0]
            && (forall i :: 0 <= i < |line| ==> !Chars.IsControl(line[i]))
  {
    var line := FieldLine(f);
    assert line[|line| - 1] == f.value[|f.value| - 1];
    assert forall i :: 0 <= i < |line| ==>
      line[i] == if i < |f.key| then f.key[i] else if i < |f.key| + 3 then " = "[i - |f.key|] else f.value[i - |f.key| - 3];
    hide FieldLine;
  }

  lemma FieldLineSplits(f: Field)
    requires FieldIsClean(f)
    ensures SplitOnce(FieldLine(f), '=') == Some((f.key + " ", " " + f.value))
  {
    SplitOnceAt(f.key + " ", '=', " " + f.value);
    assert FieldLine(f) == (f.key + " ") + ['='] + (" " + f.value);
  }

  /** A directive line adds its field. */
  lemma ReadFieldLine(f: Field, sections: seq<Section>)
    requires FieldIsClean(f)
    ensures ReadLine(FieldLine(f), sections) == AddField(sections, f)
  {
    FieldLineText(f);
    FieldLineSplits(f);
    TrimTight(FieldLine(f));
    TrimTrailingSpace(f.key);
    TrimLeadingSpace(f.value);
    hide TrimLine, TrimBlanks, FieldLine, SplitOnce, AddField, Tight, SectionHeader;
  }

  /** A comment or blank line adds nothing. */
  lemma ReadComment(line: string, sections: seq<Section>)
    requires Tight(line) && (forall i :: 0 <= i < |line| ==> !Chars.IsControl(line[i]))
    requires line == "" || line[0] == '#'
    ensures ReadLine(line, sections) == Ok(sections)
  {
    TrimTight(line);
    hide TrimLine;
  }

  lemma ReadHeader(name: SectionName, sections: seq<Section>)
    ensures ReadLine(if name.Interface? then "[Interface]" else "[Peer]", sections) == Ok(sections + [Section(name, [])])
  {
    var line := if name.Interface? then "[Interface]" else "[Peer]";
    assert Tight(line);
    TrimTight(line);
    hide TrimLine;
    assert Lacks(line, '\r');
    if name.Interface? {
      assert line[1..][..|line| - 2] == "Interface";
    } else {
      assert line[1..][..|line| - 2] == "Peer";
    }
  }

  /** Reading lines one after the other. */
  lemma {:induction false} ReadLinesAppend(a: seq<string>, b: seq<string>, sections: seq<Section>)
    ensures ReadLines(a + b, sections) ==
            match ReadLines(a, sections) case Err(e) => Err(e) case Ok(next) => ReadLines(b, next)
  {
    hide ReadLine;
    if |a| == 0 {
      assert a + b == b;
    } else {
      assert (a + b)[1..] == a[1..] + b;
      var next := ReadLine(a[0], sections);
      if next.Ok? {
        ReadLinesAppend(a[1..], b, next.value);
      }
    }
  }

  lemma ReadOneMore(line: string, lines: seq<string>, sections: seq<Section>)
    requires ReadLine(line, sections).Ok?
    ensures ReadLines([line] + lines, sections) == ReadLines(lines, ReadLine(line, sections).value)
  {
    hide ReadLine;
    assert ([line] + lines)[1..] == lines;
  }

  lemma {:induction false} ReadFieldLines(fields: seq<Field>, before: seq<Section>, name: SectionName, acc: seq<Field>)
    requires forall i :: 0 <= i < |fields| ==> FieldIsClean(fields[i])
    ensures ReadLines(FieldLines(fields), before + [Section(name, acc)]) == Ok(before + [Section(name, acc + fields)])
  {
    hide ReadLine, FieldIsClean;
    var sections := before + [Section(name, acc)];
    if |fields| == 0 {
      assert acc + fields == acc;
    } else {
      var f := fields[0];
      ReadFieldLine(f, sections);
      var next := before + [Section(name, acc + [f])];
      assert sections[|before| := Section(name, acc + [f])] == next;
      assert FieldLines(fields)[1..] == FieldLines(fields[1..]);
      ReadFieldLines(fields[1..], before, name, acc + [f]);
      assert acc + [f] + fields[1..] == acc + fields;
    }
  }

  // -------------------------------------------------------------------
  // The fields of a printable configuration
  // -------------------------------------------------------------------

  lemma PlainIsValue(v: string)
    requires Plain(v)
    ensures IsValue(v)
  {
  }

  predicate AllLetters(s: string) {
    |s| > 0 && forall i :: 0 <= i < |s| ==> 'A' <= s[i] <= 'Z' || 'a' <= s[i] <= 'z'
  }

  lemma LettersAreName(k: string)
    requires AllLetters(k)
    ensures IsName(k)
  {
  }

  lemma InterfaceKeyNames()
    ensures IsName("PrivateKey") && IsName("Address") && IsName("ListenPort") && IsName("DNS") && IsName("MTU")
  {
    hide IsName;
    LettersAreName("PrivateKey");
    LettersAreName("Address");
    LettersAreName("ListenPort");
    LettersAreName("DNS");
    LettersAreName("MTU");
  }

  lemma PeerKeyNames()
    ensures IsName("PublicKey") && IsName("PresharedKey") && IsName("AllowedIPs") && IsName("Endpoint")
    ensures IsName("PersistentKeepalive")
  {
    hide IsName;
    LettersAreName("PublicKey");
    LettersAreName("PresharedKey");
    LettersAreName("AllowedIPs");
    LettersAreName("Endpoint");
    LettersAreName("PersistentKeepalive");
  }

  lemma NumberIsValue(n: u16)
    ensures IsValue(PrintNat(n))
  {
    hide PrintNat;
    ParsePrintedU16(n);
  }

  lemma NetIsValue(n: Net)
    ensures IsValue(PrintNet(n))
  {
    hide PrintNet;
    PrintedNetChars(n);
  }

  lemma InterfaceValues(lib: Library, i: ParsedInterface)
    requires InterfaceOk(lib, i)
    ensures IsValue(i.privateKey) && (i.dns.Some? ==> IsValue(i.dns.value))
  {
    assert Plain(i.privateKey);
    assert i.dns.Some? ==> Plain(i.dns.value);
  }

  lemma InterfaceFieldsClean(lib: Library, i: ParsedInterface)
    requires InterfaceOk(lib, i)
    ensures forall k :: 0 <= k < |InterfaceFieldList(i)| ==> FieldIsClean(InterfaceFieldList(i)[k])
  {
    hide PrintNat, PrintNet, IsName, IsValue, InterfaceOk, Host;
    InterfaceKeyNames();
    InterfaceValues(lib, i);
    NetIsValue(Host(i.address));
    NumberIsValue(i.listenPort);
    if i.mtu.Some? {
      NumberIsValue(i.mtu.value);
    }
  }

  /** Lists of networks are clean values, and splitting them at commas leaves single networks. */
  lemma {:induction false} CommaListIsValue(nets: seq<Net>)
    requires |nets| > 0
    ensures IsValue(CommaList(NetTexts(nets)))
  {
    PrintedNetChars(nets[0]);
    hide PrintNet;
    if |nets| > 1 {
      assert NetTexts(nets)[1..] == NetTexts(nets[1..]);
      CommaListIsValue(nets[1..]);
      ValueJoin(PrintNet(nets[0]), CommaList(NetTexts(nets[1..])));
    } else {
      PlainIsValue(PrintNet(nets[0]));
    }
  }

  lemma ValueJoin(a: string, b: string)
    requires Plain(a) && IsValue(b)
    ensures IsValue(a + ", " + b)
  {
    var s := a + ", " + b;
    assert s[|s| - 1] == b[|b| - 1];
  }

  lemma PeerFieldsClean(lib: Library, p: ParsedPeer)
    requires PeerOk(lib, p)
    ensures forall k :: 0 <= k < |PeerFieldList(p)| ==> FieldIsClean(PeerFieldList(p)[k])
  {
    hide PrintNat, PrintNet, IsName, IsValue, EndpointOk, NetsOk, CommaList, PeerOk;
    PeerKeyNames();
    PeerValues(lib, p);
    if p.persistentKeepalive.Some? {
      NumberIsValue(p.persistentKeepalive.value);
    }
  }

  lemma PeerValues(lib: Library, p: ParsedPeer)
    requires PeerOk(lib, p)
    ensures IsValue(p.publicKey) && IsValue(p.presharedKey) && IsValue(CommaList(NetTexts(p.allowedIps)))
    ensures p.endpoint.Some? ==> IsValue(p.endpoint.value)
  {
    hide CommaList, EndpointOk, NetsOk;
    assert Plain(p.publicKey) && Plain(p.presharedKey);
    CommaListIsValue(p.allowedIps);
    if p.endpoint.Some? {
      EndpointIsPlain(lib, p.endpoint.value);
    }
  }

  // -------------------------------------------------------------------
  // Lines to sections
  // -------------------------------------------------------------------

  function PeerSections(peers: seq<ParsedPeer>): (s: seq<Section>)
    ensures |s| == |peers| && forall i :: 0 <= i < |peers| ==> s[i] == Section(Peer, PeerFieldList(peers[i]))
  {
    seq(|peers|, i requires 0 <= i < |peers| => Section(Peer, PeerFieldList(peers[i])))
  }

  function Sections(c: ParsedConfig): seq<Section> {
    [Section(Interface, InterfaceFieldList(c.interface))] + PeerSections(c.peers)
  }

  /** The first line of every rendered file. */
  const BANNER: string := "# Managed by " + "wg-server -- " + "do not edit " + "manually."

  predicate Printing(s: string) {
    forall i :: 0 <= i < |s| ==> ' ' <= s[i] <= '~'
  }

  lemma BannerIsComment()
    ensures Tight(BANNER) && BANNER[0] == '#' && forall i :: 0 <= i < |BANNER| ==> !Chars.IsControl(BANNER[i])
  {
    var p0, p1, p2, p3 := "# Managed by ", "wg-server -- ", "do not edit ", "manually.";
    assert Printing(p0) && Printing(p1) && Printing(p2) && Printing(p3);
    assert p0[0] == '#' && p3[|p3| - 1] == '.';
    BannerParts(p0, p1, p2, p3);
  }

  lemma BannerParts(p0: string, p1: string, p2: string, p3: string)
    requires Printing(p0) && Printing(p1) && Printing(p2) && Printing(p3)
    requires |p0| > 0 && p0[0] == '#' && |p3| > 0 && p3[|p3| - 1] == '.'
    ensures var s := p0 + p1 + p2 + p3;
            Tight(s) && s[0] == '#' && forall i :: 0 <= i < |s| ==> !Chars.IsControl(s[i])
  {
    var s := p0 + p1 + p2 + p3;
    assert s[|s| - 1] == '.';
    assert Printing(s);
  }

  lemma HostComment(prefix: string, h: string)
    requires prefix == "# Hostname: " || prefix == "# "
    requires Hostname.IsValid(h)
    ensures Tight(prefix + h) && forall i :: 0 <= i < |prefix + h| ==> !Chars.IsControl((prefix + h)[i])
    ensures (prefix + h)[0] == '#'
  {
    Hostname.Characters(h);
    hide Hostname.IsValid;
    var s := prefix + h;
    assert s[|s| - 1] == h[|h| - 1];
    assert forall i :: 0 <= i < |s| ==> s[i] == if i < |prefix| then prefix[i] else h[i - |prefix|];
  }

  /** Two lines that add nothing around a header, then directives. */
  lemma ReadThree(l0: string, l1: string, l2: string, rest: seq<string>, before: seq<Section>, start: seq<Section>)
    requires ReadLine(l0, before) == Ok(before) && ReadLine(l1, before) == Ok(start) && ReadLine(l2, start) == Ok(start)
    ensures ReadLines([l0, l1, l2] + rest, before) == ReadLines(rest, start)
  {
    hide ReadLine, ReadLines;
    ReadOneMore(l2, rest, start);
    ReadOneMore(l1, [l2] + rest, before);
    ReadOneMore(l0, [l1] + ([l2] + rest), before);
    assert [l0, l1, l2] + rest == [l0] + ([l1] + ([l2] + rest));
  }

  /** Three lines that add nothing, a header, then directives. */
  lemma ReadFour(l0: string, l1: string, l2: string, l3: string, rest: seq<string>, before: seq<Section>, start: seq<Section>)
    requires ReadLine(l0, before) == Ok(before) && ReadLine(l1, before) == Ok(before) && ReadLine(l2, before) == Ok(before)
    requires ReadLine(l3, before) == Ok(start)
    ensures ReadLines([l0, l1, l2, l3] + rest, before) == ReadLines(rest, start)
  {
    hide ReadLine, ReadLines;
    ReadOneMore(l3, rest, before);
    ReadThree(l0, l1, l2, [l3] + rest, before, before);
    assert [l0, l1, l2, l3] + rest == [l0, l1, l2] + ([l3] + rest);
  }

  lemma ReadInterfaceLines(lib: Library, host: string, i: ParsedInterface)
    requires InterfaceOk(lib, i) && Hostname.IsValid(host)
    ensures ReadLines(InterfaceLines(host, i), []) == Ok([Section(Interface, InterfaceFieldList(i))])
  {
    hide ReadLine, ReadLines, FieldIsClean, InterfaceFieldList, InterfaceOk, Hostname.IsValid, Tight;
    InterfaceFieldsClean(lib, i);
    HostComment("# Hostname: ", host);
    BannerIsComment();
    BlankIsComment();
    var fields := InterfaceFieldList(i);
    ReadComment(BANNER, []);
    ReadComment("# Hostname: " + host, []);
    ReadComment("", []);
    ReadHeader(Interface, []);
    assert [] + [Section(Interface, [])] == [Section(Interface, [])];
    ReadFieldLines(fields, [], Interface, []);
    assert [] + fields == fields;
    assert [] + [Section(Interface, fields)] == [Section(Interface, fields)];
    ReadFour(BANNER, "# Hostname: " + host, "", "[Interface]", FieldLines(fields), [], [Section(Interface, [])]);
  }

  lemma BlankIsComment()
    ensures Tight("")
  {
  }

  lemma ReadPeerLines(lib: Library, name: string, p: ParsedPeer, before: seq<Section>)
    requires PeerOk(lib, p) && Hostname.IsValid(name)
    ensures ReadLines(PeerLines(name, p), before) == Ok(before + [Section(Peer, PeerFieldList(p))])
  {
    hide ReadLine, ReadLines, FieldIsClean, PeerFieldList, PeerOk, Hostname.IsValid, Tight;
    PeerFieldsClean(lib, p);
    HostComment("# ", name);
    BlankIsComment();
    var fields := PeerFieldList(p);
    var start := before + [Section(Peer, [])];
    ReadComment("", before);
    ReadHeader(Peer, before);
    ReadComment("# " + name, start);
    ReadFieldLines(fields, before, Peer, []);
    assert [] + fields == fields;
    ReadThree("", "[Peer]", "# " + name, FieldLines(fields), before, start);
  }

  lemma ReadNothing(sections: seq<Section>)
    ensures ReadLines([], sections) == Ok(sections)
  {
  }

  lemma ReadBlocks(a: seq<string>, b: seq<string>, before: seq<Section>, first: seq<Section>, rest: seq<Section>)
    requires ReadLines(a, before) == Ok(before + first) && ReadLines(b, before + first) == Ok(before + first + rest)
    ensures ReadLines(a + b, before) == Ok(before + (first + rest))
  {
    ReadLinesAppend(a, b, before);
    hide ReadLines;
    assert before + first + rest == before + (first + rest);
  }

  lemma PeerSectionsSplit(peers: seq<ParsedPeer>)
    requires |peers| > 0
    ensures PeerSections(peers) == [Section(Peer, PeerFieldList(peers[0]))] + PeerSections(peers[1..])
  {
    hide PeerFieldList;
  }

  lemma {:induction false} ReadAllPeerLines(lib: Library, names: seq<string>, peers: seq<ParsedPeer>, before: seq<Section>)
    requires |names| == |peers|
    requires forall i :: 0 <= i < |peers| ==> PeerOk(lib, peers[i]) && Hostname.IsValid(names[i])
    ensures ReadLines(AllPeerLines(names, peers), before) == Ok(before + PeerSections(peers))
  {
    hide ReadLines, PeerOk, Hostname.IsValid, PeerLines, PeerFieldList, PeerSections;
    if |peers| == 0 {
      ReadNothing(before);
      assert PeerSections(peers) == [];
      assert before + [] == before;
    } else {
      var first := [Section(Peer, PeerFieldList(peers[0]))];
      ReadPeerLines(lib, names[0], peers[0], before);
      ReadAllPeerLines(lib, names[1..], peers[1..], before + first);
      ReadBlocks(PeerLines(names[0], peers[0]), AllPeerLines(names[1..], peers[1..]), before, first,
                 PeerSections(peers[1..]));
      PeerSectionsSplit(peers);
    }
  }

  lemma ReadPrintedLines(lib: Library, host: string, names: seq<string>, c: ParsedConfig)
    requires |names| == |c.peers| && Hostname.IsValid(host) && InterfaceOk(lib, c.interface)
    requires forall i :: 0 <= i < |c.peers| ==> PeerOk(lib, c.peers[i]) && Hostname.IsValid(names[i])
    ensures ReadLines(Lines(host, names, c), []) == Ok(Sections(c))
  {
    hide ReadLines, PeerOk, Hostname.IsValid, InterfaceLines, AllPeerLines, InterfaceFieldList, InterfaceOk,
      PeerSections;
    var first := [Section(Interface, InterfaceFieldList(c.interface))];
    assert [] + first == first;
    ReadInterfaceLines(lib, host, c.interface);
    ReadAllPeerLines(lib, names, c.peers, first);
    ReadBlocks(InterfaceLines(host, c.interface), AllPeerLines(names, c.peers), [], first, PeerSections(c.peers));
    assert [] + (first + PeerSections(c.peers)) == Sections(c);
  }
}
