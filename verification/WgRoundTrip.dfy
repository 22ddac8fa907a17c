/** Printing and strict reading are inverse: every printable configuration is read back exactly, and only
    printable configurations are ever accepted. */
module WgRoundTrip {
  import opened Outcomes
  import opened Text
  import opened Ipv4
  import opened Lib
  import opened Topology
  import opened WgQuick
  import opened WgPrint
  import Chars
  import Hostname

  // -------------------------------------------------------------------
  // Directives to records
  // -------------------------------------------------------------------

  lemma InterfaceStep(lib: Library, f: Field, rest: seq<Field>, seen: set<string>, acc: InterfaceFields,
                      next: InterfaceFields)
    requires f.key in INTERFACE_KEYS && f.key !in seen && SetInterfaceField(lib, acc, f) == Ok(next)
    ensures ReadInterface(lib, [f] + rest, seen, acc) == ReadInterface(lib, rest, seen + {f.key}, next)
  {
    hide SetInterfaceField;
    assert ([f] + rest)[1..] == rest;
    NotForbidden(f.key);
  }

  lemma NotForbidden(key: string)
    ensures key in INTERFACE_KEYS ==> key !in FORBIDDEN_KEYS
  {
    assert "PrivateKey"[2] == 'i' && "PreDown"[2] == 'e';
  }

  lemma ReadOptional(lib: Library, i: ParsedInterface, seen: set<string>, acc: InterfaceFields)
    requires InterfaceOk(lib, i) && seen == {"PrivateKey", "Address", "ListenPort"}
    requires acc == NO_INTERFACE_FIELDS.(privateKey := Some(i.privateKey), address := Some(i.address),
                                         listenPort := Some(i.listenPort))
    ensures ReadInterface(lib, Optional("DNS", i.dns) + OptionalNumber("MTU", i.mtu), seen, acc)
         == Ok(acc.(dns := i.dns, mtu := i.mtu))
  {
    var dns, mtu := Optional("DNS", i.dns), OptionalNumber("MTU", i.mtu);
    if i.mtu.Some? {
      ParsePrintedU16(i.mtu.value);
    }
    var middle := acc.(dns := i.dns);
    var seen' := if i.dns.Some? then seen + {"DNS"} else seen;
    if i.dns.Some? {
      InterfaceStep(lib, dns[0], mtu, seen, acc, middle);
      assert dns + mtu == [dns[0]] + mtu;
    } else {
      assert dns + mtu == mtu;
    }
    if i.mtu.Some? {
      InterfaceStep(lib, mtu[0], [], seen', middle, middle.(mtu := i.mtu));
      assert mtu == [mtu[0]] + [];
    }
  }

  /** The directives of an interface are read back as that interface. */
  lemma ReadInterfaceFields(lib: Library, i: ParsedInterface)
    requires InterfaceOk(lib, i)
    ensures InterfaceOf(lib, InterfaceFieldList(i)) == Ok(i)
  {
    hide SetInterfaceField, ReadInterface, ParseNet, PrintNet, PrintNat, ParseU16, Optional, OptionalNumber, Plain, Lawful,
      Canonical, CheckKey, Host;
    var fs := InterfaceFieldList(i);
    var tail := Optional("DNS", i.dns) + OptionalNumber("MTU", i.mtu);
    KeyText(lib, i.privateKey);
    ParsePrintedNet(Host(i.address));
    ParsePrintedU16(i.listenPort);
    var a0 := NO_INTERFACE_FIELDS;
    var a1 := a0.(privateKey := Some(i.privateKey));
    var a2 := a1.(address := Some(i.address));
    var a3 := a2.(listenPort := Some(i.listenPort));
    InterfaceFieldSets(lib, i, a0, a1, a2, a3);
    ReadOptional(lib, i, {"PrivateKey", "Address", "ListenPort"}, a3);
    InterfaceSteps(lib, fs[0], fs[1], fs[2], tail, a0, a1, a2, a3);
    assert fs == [fs[0]] + ([fs[1]] + ([fs[2]] + tail));
  }

  lemma InterfaceSteps(lib: Library, f0: Field, f1: Field, f2: Field, tail: seq<Field>, a0: InterfaceFields,
                       a1: InterfaceFields, a2: InterfaceFields, a3: InterfaceFields)
    requires f0.key == "PrivateKey" && f1.key == "Address" && f2.key == "ListenPort"
    requires SetInterfaceField(lib, a0, f0) == Ok(a1) && SetInterfaceField(lib, a1, f1) == Ok(a2)
    requires SetInterfaceField(lib, a2, f2) == Ok(a3)
    ensures ReadInterface(lib, [f0] + ([f1] + ([f2] + tail)), {}, a0)
         == ReadInterface(lib, tail, {"PrivateKey", "Address", "ListenPort"}, a3)
  {
    hide SetInterfaceField, ReadInterface;
    var s1: set<string>, s2 := {"PrivateKey"}, {"PrivateKey", "Address"};
    assert {} + {"PrivateKey"} == s1;
    assert s1 + {"Address"} == s2;
    assert s2 + {"ListenPort"} == {"PrivateKey", "Address", "ListenPort"};
    InterfaceStep(lib, f2, tail, s2, a2, a3);
    InterfaceStep(lib, f1, [f2] + tail, s1, a1, a2);
    InterfaceStep(lib, f0, [f1] + ([f2] + tail), {}, a0, a1);
  }

  lemma InterfaceFieldSets(lib: Library, i: ParsedInterface, a0: InterfaceFields, a1: InterfaceFields,
                           a2: InterfaceFields, a3: InterfaceFields)
    requires InterfaceOk(lib, i) && IsKey(lib, i.privateKey)
    requires ParseNet(PrintNet(Host(i.address))) == Some(Host(i.address))
    requires ParseU16(PrintNat(i.listenPort)) == Some(i.listenPort)
    requires a1 == a0.(privateKey := Some(i.privateKey)) && a2 == a1.(address := Some(i.address))
    requires a3 == a2.(listenPort := Some(i.listenPort))
    ensures SetInterfaceField(lib, a0, InterfaceFieldList(i)[0]) == Ok(a1)
    ensures SetInterfaceField(lib, a1, InterfaceFieldList(i)[1]) == Ok(a2)
    ensures SetInterfaceField(lib, a2, InterfaceFieldList(i)[2]) == Ok(a3)
  {
    hide ParseNet, PrintNet, PrintNat, ParseU16, Optional, OptionalNumber, IsKey;
  }

  lemma PeerStep(lib: Library, f: Field, rest: seq<Field>, seen: set<string>, acc: PeerFields, next: PeerFields)
    requires f.key in PEER_KEYS && f.key !in seen && SetPeerField(lib, acc, f) == Ok(next)
    ensures ReadPeer(lib, [f] + rest, seen, acc) == ReadPeer(lib, rest, seen + {f.key}, next)
  {
    hide SetPeerField;
    assert ([f] + rest)[1..] == rest;
  }

  /** A comma list of networks is read back as those networks. */
  lemma {:induction false} ReadNets(lead: string, nets: seq<Net>, acc: seq<Net>)
    requires lead == "" || lead == " "
    requires |nets| > 0 && NetsOk(nets)
    ensures ParseAllowed(Split(lead + CommaList(NetTexts(nets)), ','), acc) == Ok(acc + nets)
    decreases |nets|
  {
    hide ParseAllowed, ParseNet, PrintNet, TrimBlanks, NetOk, Split, Lacks;
    var first := PrintNet(nets[0]);
    ReadNet(lead, nets[0]);
    if |nets| == 1 {
      assert CommaList(NetTexts(nets)) == first;
      SplitWhole(lead + first, ',');
      ParseOneNet(lead + first, nets[0], [], acc);
      assert [lead + first] + [] == [lead + first];
      assert acc + [nets[0]] == acc + nets;
      NoMoreNets(acc + nets);
    } else {
      var more := CommaList(NetTexts(nets[1..]));
      assert NetTexts(nets)[1..] == NetTexts(nets[1..]);
      ReadNets(" ", nets[1..], acc + [nets[0]]);
      SplitFirst(lead + first, ',', " " + more);
      assert lead + (first + ", " + more) == (lead + first) + [','] + (" " + more);
      ParseOneNet(lead + first, nets[0], Split(" " + more, ','), acc);
      assert (acc + [nets[0]]) + nets[1..] == acc + nets;
    }
  }

  lemma ParseOneNet(entry: string, n: Net, rest: seq<string>, acc: seq<Net>)
    requires NetOk(n) && ParseNet(TrimBlanks(entry)) == Some(n)
    ensures ParseAllowed([entry] + rest, acc) == ParseAllowed(rest, acc + [n])
  {
    hide ParseNet, TrimBlanks, Network;
    assert ([entry] + rest)[1..] == rest;
  }

  lemma NoMoreNets(acc: seq<Net>)
    ensures ParseAllowed([], acc) == Ok(acc)
  {
  }

  lemma ReadNet(lead: string, n: Net)
    requires lead == "" || lead == " "
    ensures TrimBlanks(lead + PrintNet(n)) == PrintNet(n) && ParseNet(PrintNet(n)) == Some(n)
    ensures Lacks(lead + PrintNet(n), ',')
  {
    ParsePrintedNet(n);
    PrintedNetChars(n);
    hide PrintNet, ParseNet;
    var text := PrintNet(n);
    if lead == "" {
      assert lead + text == text;
      TrimTight(text);
    } else {
      TrimLeadingSpace(text);
    }
  }

  lemma ReadOptionalPeer(lib: Library, p: ParsedPeer, seen: set<string>, acc: PeerFields)
    requires PeerOk(lib, p) && seen == {"PublicKey", "PresharedKey", "AllowedIPs"}
    requires acc == NO_PEER_FIELDS.(publicKey := Some(p.publicKey), presharedKey := Some(p.presharedKey),
                                    allowedIps := Some(p.allowedIps))
    ensures ReadPeer(lib, Optional("Endpoint", p.endpoint) + OptionalNumber("PersistentKeepalive", p.persistentKeepalive),
                     seen, acc)
         == Ok(acc.(endpoint := p.endpoint, keepalive := p.persistentKeepalive))
  {
    hide EndpointOk, NetsOk;
    var endpoint := Optional("Endpoint", p.endpoint);
    var keepalive := OptionalNumber("PersistentKeepalive", p.persistentKeepalive);
    if p.persistentKeepalive.Some? {
      ParsePrintedU16(p.persistentKeepalive.value);
    }
    var middle := acc.(endpoint := p.endpoint);
    var seen' := if p.endpoint.Some? then seen + {"Endpoint"} else seen;
    if p.endpoint.Some? {
      PeerStep(lib, endpoint[0], keepalive, seen, acc, middle);
      assert endpoint + keepalive == [endpoint[0]] + keepalive;
    } else {
      assert endpoint + keepalive == keepalive;
    }
    if p.persistentKeepalive.Some? {
      PeerStep(lib, keepalive[0], [], seen', middle, middle.(keepalive := p.persistentKeepalive));
      assert keepalive == [keepalive[0]] + [];
    }
  }

  lemma PeerFieldSets(lib: Library, p: ParsedPeer, a0: PeerFields, a1: PeerFields, a2: PeerFields, a3: PeerFields)
    requires IsKey(lib, p.publicKey) && IsKey(lib, p.presharedKey)
    requires |CommaList(NetTexts(p.allowedIps))| > 0
    requires ParseAllowed(Split(CommaList(NetTexts(p.allowedIps)), ','), []) == Ok(p.allowedIps)
    requires a1 == a0.(publicKey := Some(p.publicKey)) && a2 == a1.(presharedKey := Some(p.presharedKey))
    requires a3 == a2.(allowedIps := Some(p.allowedIps))
    ensures SetPeerField(lib, a0, PeerFieldList(p)[0]) == Ok(a1)
    ensures SetPeerField(lib, a1, PeerFieldList(p)[1]) == Ok(a2)
    ensures SetPeerField(lib, a2, PeerFieldList(p)[2]) == Ok(a3)
  {
    hide ParseAllowed, Split, CommaList, NetTexts, Optional, OptionalNumber, IsKey;
  }

  /** The directives of a peer are read back as that peer. */
  lemma ReadPeerFields(lib: Library, p: ParsedPeer)
    requires PeerOk(lib, p)
    ensures PeerOf(lib, PeerFieldList(p)) == Ok(p)
  {
    hide SetPeerField, ReadPeer, Optional, OptionalNumber, CommaList, NetTexts, ParseAllowed, Split, EndpointOk, NetsOk, Plain,
      Lawful, Canonical, CheckKey;
    var fs := PeerFieldList(p);
    var tail := Optional("Endpoint", p.endpoint) + OptionalNumber("PersistentKeepalive", p.persistentKeepalive);
    KeyText(lib, p.publicKey);
    KeyText(lib, p.presharedKey);
    CommaListIsValue(p.allowedIps);
    ReadNets("", p.allowedIps, []);
    var list := CommaList(NetTexts(p.allowedIps));
    assert "" + list == list && [] + p.allowedIps == p.allowedIps;
    var a0 := NO_PEER_FIELDS;
    var a1 := a0.(publicKey := Some(p.publicKey));
    var a2 := a1.(presharedKey := Some(p.presharedKey));
    var a3 := a2.(allowedIps := Some(p.allowedIps));
    PeerFieldSets(lib, p, a0, a1, a2, a3);
    ReadOptionalPeer(lib, p, {"PublicKey", "PresharedKey", "AllowedIPs"}, a3);
    assert |p.allowedIps| > 0;
    PeerSteps(lib, fs[0], fs[1], fs[2], tail, a0, a1, a2, a3);
    assert fs == [fs[0]] + ([fs[1]] + ([fs[2]] + tail));
  }

  lemma PeerSteps(lib: Library, f0: Field, f1: Field, f2: Field, tail: seq<Field>, a0: PeerFields, a1: PeerFields,
                  a2: PeerFields, a3: PeerFields)
    requires f0.key == "PublicKey" && f1.key == "PresharedKey" && f2.key == "AllowedIPs"
    requires SetPeerField(lib, a0, f0) == Ok(a1) && SetPeerField(lib, a1, f1) == Ok(a2)
    requires SetPeerField(lib, a2, f2) == Ok(a3)
    ensures ReadPeer(lib, [f0] + ([f1] + ([f2] + tail)), {}, a0)
         == ReadPeer(lib, tail, {"PublicKey", "PresharedKey", "AllowedIPs"}, a3)
  {
    hide SetPeerField, ReadPeer;
    var s1: set<string>, s2 := {"PublicKey"}, {"PublicKey", "PresharedKey"};
    assert {} + {"PublicKey"} == s1;
    assert s1 + {"PresharedKey"} == s2;
    assert s2 + {"AllowedIPs"} == {"PublicKey", "PresharedKey", "AllowedIPs"};
    PeerStep(lib, f2, tail, s2, a2, a3);
    PeerStep(lib, f1, [f2] + tail, s1, a1, a2);
    PeerStep(lib, f0, [f1] + ([f2] + tail), {}, a0, a1);
  }

  lemma {:induction false} BuildPeers(lib: Library, i: ParsedInterface, before: seq<ParsedPeer>, peers: seq<ParsedPeer>)
    requires forall k :: 0 <= k < |peers| ==> PeerOk(lib, peers[k])
    ensures Build(lib, PeerSections(peers), Some(i), before) == Ok(ParsedConfig(i, before + peers))
    decreases |peers|
  {
    hide PeerOk, PeerOf, PeerFieldList, InterfaceOf;
    if |peers| == 0 {
      assert before + peers == before;
    } else {
      ReadPeerFields(lib, peers[0]);
      assert PeerSections(peers)[1..] == PeerSections(peers[1..]);
      BuildPeers(lib, i, before + [peers[0]], peers[1..]);
      assert before + [peers[0]] + peers[1..] == before + peers;
    }
  }

  lemma BuildSections(lib: Library, c: ParsedConfig)
    requires InterfaceOk(lib, c.interface) && forall k :: 0 <= k < |c.peers| ==> PeerOk(lib, c.peers[k])
    ensures Build(lib, Sections(c), None, []) == Ok(c)
  {
    hide PeerOk, PeerOf, PeerFieldList, InterfaceOf, InterfaceOk, InterfaceFieldList;
    ReadInterfaceFields(lib, c.interface);
    BuildPeers(lib, c.interface, [], c.peers);
    assert Sections(c)[1..] == PeerSections(c.peers);
    assert [] + c.peers == c.peers;
  }

  // -------------------------------------------------------------------
  // The checks across peers
  // -------------------------------------------------------------------

  ghost predicate KeysApart(local: string, peers: seq<ParsedPeer>, seen: set<string>) {
    && (forall i :: 0 <= i < |peers| ==> peers[i].publicKey != local && peers[i].publicKey !in seen)
    && forall i, k :: 0 <= i < k < |peers| ==> peers[i].publicKey != peers[k].publicKey
  }

  lemma {:induction false} PeerKeysExact(local: string, peers: seq<ParsedPeer>, seen: set<string>)
    ensures CheckPeerKeys(local, peers, seen) == None <==> KeysApart(local, peers, seen)
  {
    if |peers| > 0 {
      var rest, seen' := peers[1..], seen + {peers[0].publicKey};
      PeerKeysExact(local, rest, seen');
      if KeysApart(local, rest, seen') && peers[0].publicKey != local && peers[0].publicKey !in seen {
        forall i, k | 0 <= i < k < |peers| ensures peers[i].publicKey != peers[k].publicKey {
          assert peers[k] == rest[k - 1];
        }
        forall i | 0 <= i < |peers| ensures peers[i].publicKey != local && peers[i].publicKey !in seen {
          if i > 0 {
            assert peers[i] == rest[i - 1];
          }
        }
      }
    }
  }

  ghost predicate RoutesApart(address: Addr, peers: seq<ParsedPeer>) {
    && (forall i :: 0 <= i < |peers| ==> !CoversAddress(peers[i], address))
    && forall i, k :: 0 <= i < k < |peers| ==> !PeersOverlap(peers[i], peers[k])
  }

  lemma {:induction false} PeerRoutesExact(address: Addr, peers: seq<ParsedPeer>)
    ensures CheckPeerRoutes(address, peers) == None <==> RoutesApart(address, peers)
  {
    hide CoversAddress, PeersOverlap;
    if |peers| > 0 {
      var rest := peers[1..];
      PeerRoutesExact(address, rest);
      assert forall i :: 0 < i < |peers| ==> peers[i] == rest[i - 1];
      assert forall i :: 0 <= i < |rest| ==> rest[i] == peers[i + 1];
    }
  }

  /** The checks pass exactly on unambiguous configurations. */
  lemma CheckExact(lib: Library, c: ParsedConfig)
    requires lib.validKey(c.interface.privateKey)
    ensures Unambiguous(lib, c) ==> CheckConfig(lib, c) == Ok(c)
    ensures CheckConfig(lib, c).Ok? <==> Unambiguous(lib, c)
  {
    KeyText(lib, c.interface.privateKey);
    PeerKeysExact(lib.publicOf(c.interface.privateKey), c.peers, {});
    PeerRoutesExact(c.interface.address, c.peers);
    hide CheckPeerKeys, CheckPeerRoutes, CoversAddress, PeersOverlap, Canonical;
    if Unambiguous(lib, c) {
      forall i, k | 0 <= i < k < |c.peers|
        ensures c.peers[i].publicKey != c.peers[k].publicKey && !PeersOverlap(c.peers[i], c.peers[k])
      {
        assert Separate(c.peers[i], c.peers[k]);
      }
    }
  }

  // -------------------------------------------------------------------
  // Round trip
  // -------------------------------------------------------------------

  /** Printable lines: no control characters, hence no line breaks and no NUL. */
  predicate CleanLine(s: string) {
    forall i :: 0 <= i < |s| ==> !Chars.IsControl(s[i])
  }

  lemma FieldLinesClean(fields: seq<Field>)
    requires forall i :: 0 <= i < |fields| ==> FieldIsClean(fields[i])
    ensures forall i :: 0 <= i < |fields| ==> CleanLine(FieldLines(fields)[i])
  {
    hide FieldIsClean, FieldLine;
    forall i | 0 <= i < |fields| ensures CleanLine(FieldLines(fields)[i]) {
      FieldLineText(fields[i]);
    }
  }

  predicate CleanLines(lines: seq<string>) {
    forall i :: 0 <= i < |lines| ==> CleanLine(lines[i])
  }

  lemma InterfaceLinesClean(lib: Library, host: string, i: ParsedInterface)
    requires InterfaceOk(lib, i) && Hostname.IsValid(host)
    ensures CleanLines(InterfaceLines(host, i))
  {
    InterfaceFieldsClean(lib, i);
    hide InterfaceFieldList, FieldIsClean;
    FieldLinesClean(InterfaceFieldList(i));
    HostComment("# Hostname: ", host);
    BannerIsComment();
    assert CleanLine("[Interface]");
    hide CleanLine;
  }

  lemma {:induction false} PeerLinesClean(lib: Library, names: seq<string>, peers: seq<ParsedPeer>)
    requires |names| == |peers|
    requires forall i :: 0 <= i < |peers| ==> PeerOk(lib, peers[i]) && Hostname.IsValid(names[i])
    ensures CleanLines(AllPeerLines(names, peers))
  {
    hide PeerOk, Hostname.IsValid, PeerLines;
    if |peers| > 0 {
      OnePeerClean(lib, names[0], peers[0]);
      PeerLinesClean(lib, names[1..], peers[1..]);
      hide CleanLine;
    }
  }

  lemma OnePeerClean(lib: Library, name: string, p: ParsedPeer)
    requires PeerOk(lib, p) && Hostname.IsValid(name)
    ensures CleanLines(PeerLines(name, p))
  {
    PeerFieldsClean(lib, p);
    hide PeerFieldList, FieldIsClean;
    FieldLinesClean(PeerFieldList(p));
    HostComment("# ", name);
    assert CleanLine("[Peer]");
    hide CleanLine;
  }

  lemma CleanLacks(lines: seq<string>, c: char)
    requires CleanLines(lines) && Chars.IsControl(c)
    ensures forall i :: 0 <= i < |lines| ==> Lacks(lines[i], c)
  {
    forall i | 0 <= i < |lines| ensures Lacks(lines[i], c) {
      assert CleanLine(lines[i]);
    }
  }

  /** Every printable configuration that fits the size limit is read back exactly. */
  lemma PrintThenParse(lib: Library, host: string, names: seq<string>, c: ParsedConfig)
    requires |names| == |c.peers| && Printable(lib, c) && Hostname.IsValid(host)
    requires forall i :: 0 <= i < |names| ==> Hostname.IsValid(names[i])
    requires Utf8Len(Print(host, names, c)) <= MAX_CONFIG_BYTES
    ensures Parse(lib, Print(host, names, c)) == Ok(c)
  {
    var lines := Lines(host, names, c);
    LinesClean(lib, host, names, c);
    ReadPrintedLines(lib, host, names, c);
    BuildSections(lib, c);
    CheckExact(lib, c);
    hide ReadLine, ReadLines, Build, CheckConfig, Split, Unlines, Lines, PeerOk, InterfaceOk, Hostname.IsValid, Utf8Len,
      Sections, Unambiguous;
    CleanLacks(lines, '\n');
    CleanLacks(lines, '\0');
    SplitUnlines(lines);
    UnlinesLacks(lines, '\0');
    ReadLastLine(lines, [], Sections(c));
  }

  lemma ReadLastLine(lines: seq<string>, before: seq<Section>, after: seq<Section>)
    requires ReadLines(lines, before) == Ok(after)
    ensures ReadLines(lines + [""], before) == Ok(after)
  {
    ReadLinesAppend(lines, [""], before);
    ReadComment("", after);
    ReadOneMore("", [], after);
    assert [""] + [] == [""];
    ReadNothing(after);
    hide ReadLine, ReadLines;
  }

  lemma LinesClean(lib: Library, host: string, names: seq<string>, c: ParsedConfig)
    requires |names| == |c.peers| && Printable(lib, c) && Hostname.IsValid(host)
    requires forall i :: 0 <= i < |names| ==> Hostname.IsValid(names[i])
    ensures CleanLines(Lines(host, names, c))
  {
    hide PeerOk, InterfaceOk, Hostname.IsValid, InterfaceLines, AllPeerLines, Unambiguous;
    InterfaceLinesClean(lib, host, c.interface);
    PeerLinesClean(lib, names, c.peers);
    hide CleanLine;
  }

  // -------------------------------------------------------------------
  // Only printable configurations are accepted
  // -------------------------------------------------------------------

  predicate Trimmed(s: string) {
    |s| == 0 || !Chars.IsWhitespace(s[|s| - 1])
  }

  lemma {:induction false} TrimEndTrimmed(s: string)
    ensures Trimmed(TrimEnd(s, c => Chars.IsWhitespace(c)))
  {
    if |s| > 0 && Chars.IsWhitespace(s[|s| - 1]) {
      TrimEndTrimmed(s[..|s| - 1]);
    }
  }

  predicate TrimmedFields(sections: seq<Section>) {
    forall i :: 0 <= i < |sections| ==> FieldsTrimmed(sections[i].fields)
  }

  predicate FieldsTrimmed(fields: seq<Field>) {
    forall k :: 0 <= k < |fields| ==> Trimmed(fields[k].value)
  }

  lemma LineTrims(line: string, sections: seq<Section>)
    requires TrimmedFields(sections)
    ensures ReadLine(line, sections).Ok? ==> TrimmedFields(ReadLine(line, sections).value)
  {
    var split := SplitOnce(TrimLine(line), '=');
    if split.Some? {
      TrimEndTrimmed(TrimStart(split.value.1, c => Chars.IsWhitespace(c)));
      FieldTrims(Field(TrimBlanks(split.value.0), TrimBlanks(split.value.1)), sections);
    }
    hide TrimLine, SplitOnce, TrimBlanks, AddField;
  }

  lemma FieldTrims(f: Field, sections: seq<Section>)
    requires TrimmedFields(sections) && Trimmed(f.value)
    ensures AddField(sections, f).Ok? ==> TrimmedFields(AddField(sections, f).value)
  {
  }

  lemma {:induction false} LinesTrim(lines: seq<string>, sections: seq<Section>)
    requires TrimmedFields(sections)
    ensures ReadLines(lines, sections).Ok? ==> TrimmedFields(ReadLines(lines, sections).value)
  {
    hide ReadLine, TrimmedFields;
    if |lines| > 0 {
      LineTrims(lines[0], sections);
      if ReadLine(lines[0], sections).Ok? {
        LinesTrim(lines[1..], ReadLine(lines[0], sections).value);
      }
    }
  }

  lemma KeyIsCanonical(lib: Library, v: string)
    requires Trimmed(v)
    ensures Canonical(v) == v && (IsKey(lib, v) <==> lib.validKey(v))
  {
  }

  /** What is known of interface directives read so far. */
  predicate InterfaceSoFar(lib: Library, acc: InterfaceFields) {
    && (acc.privateKey.Some? ==> lib.validKey(acc.privateKey.value))
    && (acc.listenPort.Some? ==> acc.listenPort.value != 0)
    && (acc.dns.Some? ==> lib.parseIp(acc.dns.value) == acc.dns)
    && (acc.mtu.Some? ==> acc.mtu.value >= MIN_MTU)
  }

  lemma {:induction false} InterfaceAccepted(lib: Library, fields: seq<Field>, seen: set<string>, acc: InterfaceFields)
    requires FieldsTrimmed(fields) && InterfaceSoFar(lib, acc)
    ensures ReadInterface(lib, fields, seen, acc).Ok? ==> InterfaceSoFar(lib, ReadInterface(lib, fields, seen, acc).value)
    decreases |fields|
  {
    hide SetInterfaceField, CheckKey, InterfaceSoFar;
    if |fields| > 0 {
      InterfaceFieldAccepted(lib, acc, fields[0]);
      var next := SetInterfaceField(lib, acc, fields[0]);
      if next.Ok? {
        InterfaceAccepted(lib, fields[1..], seen + {fields[0].key}, next.value);
      }
    }
  }

  lemma InterfaceFieldAccepted(lib: Library, acc: InterfaceFields, f: Field)
    requires Trimmed(f.value) && InterfaceSoFar(lib, acc)
    ensures SetInterfaceField(lib, acc, f).Ok? ==> InterfaceSoFar(lib, SetInterfaceField(lib, acc, f).value)
  {
    KeyIsCanonical(lib, f.value);
    hide ParseNet, ParseU16, IsKey, Canonical, Plain;
    assert lib.parseIp(f.value).Some? ==> lib.parseIp(lib.parseIp(f.value).value) == lib.parseIp(f.value);
    hide Lawful;
  }

  predicate PeerSoFar(lib: Library, acc: PeerFields) {
    && (acc.publicKey.Some? ==> lib.validKey(acc.publicKey.value))
    && (acc.presharedKey.Some? ==> lib.validKey(acc.presharedKey.value))
    && (acc.allowedIps.Some? ==> NetsOk(acc.allowedIps.value))
    && (acc.endpoint.Some? ==> EndpointOk(lib, acc.endpoint.value))
  }

  lemma {:induction false} NetsAccepted(entries: seq<string>, nets: seq<Net>)
    requires NetsOk(nets)
    ensures ParseAllowed(entries, nets).Ok? ==> NetsOk(ParseAllowed(entries, nets).value)
  {
    hide ParseNet, Network, TrimBlanks;
    if |entries| > 0 {
      var net := ParseNet(TrimBlanks(entries[0]));
      if net.Some? && NetOk(net.value) {
        NetsAccepted(entries[1..], nets + [net.value]);
      }
    }
  }

  lemma NoNets()
    ensures NetsOk([])
  {
  }

  lemma PeerFieldAccepted(lib: Library, acc: PeerFields, f: Field)
    requires Trimmed(f.value) && PeerSoFar(lib, acc)
    ensures SetPeerField(lib, acc, f).Ok? ==> PeerSoFar(lib, SetPeerField(lib, acc, f).value)
  {
    hide ParseAllowed, ParseU16, IsKey, Canonical, Split, EndpointOk, NetsOk, Lawful;
    KeyIsCanonical(lib, f.value);
    assert NetsOk([]) by { NoNets(); }
    NetsAccepted(Split(f.value, ','), []);
  }

  lemma {:induction false} PeerAccepted(lib: Library, fields: seq<Field>, seen: set<string>, acc: PeerFields)
    requires FieldsTrimmed(fields) && PeerSoFar(lib, acc)
    ensures ReadPeer(lib, fields, seen, acc).Ok? ==> PeerSoFar(lib, ReadPeer(lib, fields, seen, acc).value)
    decreases |fields|
  {
    hide SetPeerField, CheckKey, PeerSoFar;
    if |fields| > 0 {
      PeerFieldAccepted(lib, acc, fields[0]);
      var next := SetPeerField(lib, acc, fields[0]);
      if next.Ok? {
        PeerAccepted(lib, fields[1..], seen + {fields[0].key}, next.value);
      }
    }
  }

  lemma RecordsAccepted(lib: Library, fields: seq<Field>)
    requires FieldsTrimmed(fields)
    ensures InterfaceOf(lib, fields).Ok? ==> InterfaceOk(lib, InterfaceOf(lib, fields).value)
    ensures PeerOf(lib, fields).Ok? ==> PeerOk(lib, PeerOf(lib, fields).value)
  {
    InterfaceAccepted(lib, fields, {}, NO_INTERFACE_FIELDS);
    PeerAccepted(lib, fields, {}, NO_PEER_FIELDS);
    hide ReadInterface, ReadPeer, NetsOk, EndpointOk, Lawful;
  }

  lemma {:induction false} SectionsAccepted(lib: Library, sections: seq<Section>, i: Option<ParsedInterface>,
                                            peers: seq<ParsedPeer>)
    requires TrimmedFields(sections)
    requires i.Some? ==> InterfaceOk(lib, i.value)
    requires forall k :: 0 <= k < |peers| ==> PeerOk(lib, peers[k])
    ensures var r := Build(lib, sections, i, peers);
            r.Ok? ==> InterfaceOk(lib, r.value.interface)
                      && forall k :: 0 <= k < |r.value.peers| ==> PeerOk(lib, r.value.peers[k])
    decreases |sections|
  {
    hide InterfaceOf, PeerOf, InterfaceOk, PeerOk, FieldsTrimmed;
    if |sections| > 0 {
      RecordsAccepted(lib, sections[0].fields);
      if sections[0].name.Interface? {
        var next := InterfaceOf(lib, sections[0].fields);
        if next.Ok? {
          SectionsAccepted(lib, sections[1..], Some(next.value), peers);
        }
      } else {
        var next := PeerOf(lib, sections[0].fields);
        if next.Ok? {
          SectionsAccepted(lib, sections[1..], i, peers + [next.value]);
        }
      }
    }
  }

  /** Whatever text is accepted, its configuration is printable: keys are canonical, networks canonical and
      never a default route, peers told apart by key and by address, and no peer covers the local node. */
  lemma AcceptedIsPrintable(lib: Library, text: string)
    requires Parse(lib, text).Ok?
    ensures Printable(lib, Parse(lib, text).value)
  {
    LinesTrim(Split(text, '\n'), []);
    hide ReadLines, Split, CheckConfig, Build, InterfaceOk, PeerOk, Unambiguous, TrimmedFields, Utf8Len;
    var sections := ReadLines(Split(text, '\n'), []).value;
    assert TrimmedFields([]) ==> TrimmedFields(sections);
    NoSections();
    SectionsAccepted(lib, sections, None, []);
    Checked(lib, Build(lib, sections, None, []).value);
  }

  lemma NoSections()
    ensures TrimmedFields([])
  {
  }

  lemma Checked(lib: Library, c: ParsedConfig)
    requires CheckConfig(lib, c).Ok? && InterfaceOk(lib, c.interface)
    ensures CheckConfig(lib, c).value == c && Unambiguous(lib, c)
  {
    CheckExact(lib, c);
    hide CheckPeerKeys, CheckPeerRoutes, Unambiguous;
  }

  // -------------------------------------------------------------------
  // Only the listed directives are accepted
  // -------------------------------------------------------------------

  /** Every directive is allowed in its section, and none is repeated. */
  ghost predicate DirectivesOk(fields: seq<Field>, allowed: set<string>, seen: set<string>) {
    && (forall k :: 0 <= k < |fields| ==> fields[k].key in allowed && fields[k].key !in seen)
    && forall k, l :: 0 <= k < l < |fields| ==> fields[k].key != fields[l].key
  }

  lemma MoreDirectives(fields: seq<Field>, allowed: set<string>, seen: set<string>)
    requires |fields| > 0 && fields[0].key in allowed && fields[0].key !in seen
    requires DirectivesOk(fields[1..], allowed, seen + {fields[0].key})
    ensures DirectivesOk(fields, allowed, seen)
  {
    var rest := fields[1..];
    assert forall k :: 0 < k < |fields| ==> fields[k] == rest[k - 1];
  }

  lemma {:induction false} InterfaceDirectives(lib: Library, fields: seq<Field>, seen: set<string>, acc: InterfaceFields)
    ensures ReadInterface(lib, fields, seen, acc).Ok? ==> DirectivesOk(fields, INTERFACE_KEYS, seen)
    decreases |fields|
  {
    hide SetInterfaceField, DirectivesOk;
    if |fields| == 0 {
      NoDirectives(INTERFACE_KEYS, seen);
    } else if ReadInterface(lib, fields, seen, acc).Ok? {
      InterfaceDirectives(lib, fields[1..], seen + {fields[0].key}, SetInterfaceField(lib, acc, fields[0]).value);
      MoreDirectives(fields, INTERFACE_KEYS, seen);
    }
  }

  lemma {:induction false} PeerDirectives(lib: Library, fields: seq<Field>, seen: set<string>, acc: PeerFields)
    ensures ReadPeer(lib, fields, seen, acc).Ok? ==> DirectivesOk(fields, PEER_KEYS, seen)
    decreases |fields|
  {
    hide SetPeerField, DirectivesOk;
    if |fields| == 0 {
      NoDirectives(PEER_KEYS, seen);
    } else if ReadPeer(lib, fields, seen, acc).Ok? {
      PeerDirectives(lib, fields[1..], seen + {fields[0].key}, SetPeerField(lib, acc, fields[0]).value);
      MoreDirectives(fields, PEER_KEYS, seen);
    }
  }

  lemma NoDirectives(allowed: set<string>, seen: set<string>)
    ensures DirectivesOk([], allowed, seen)
  {
  }

  ghost predicate SectionOk(s: Section) {
    DirectivesOk(s.fields, if s.name.Interface? then INTERFACE_KEYS else PEER_KEYS, {})
  }

  function Interfaces(sections: seq<Section>): nat {
    if |sections| == 0 then 0 else (if sections[0].name.Interface? then 1 else 0) + Interfaces(sections[1..])
  }

  lemma {:induction false} SectionsOk(lib: Library, sections: seq<Section>, i: Option<ParsedInterface>, peers: seq<ParsedPeer>)
    requires Build(lib, sections, i, peers).Ok?
    ensures forall k :: 0 <= k < |sections| ==> SectionOk(sections[k])
    ensures Interfaces(sections) + (if i.Some? then 1 else 0) == 1
    ensures |Build(lib, sections, i, peers).value.peers| == |peers| + |sections| - Interfaces(sections)
    decreases |sections|
  {
    hide ReadInterface, ReadPeer, DirectivesOk, FinishInterface, FinishPeer;
    if |sections| > 0 {
      var fields := sections[0].fields;
      InterfaceDirectives(lib, fields, {}, NO_INTERFACE_FIELDS);
      PeerDirectives(lib, fields, {}, NO_PEER_FIELDS);
      if sections[0].name.Interface? {
        SectionsOk(lib, sections[1..], Some(InterfaceOf(lib, fields).value), peers);
      } else {
        SectionsOk(lib, sections[1..], i, peers + [PeerOf(lib, fields).value]);
      }
      assert forall k :: 0 < k < |sections| ==> sections[k] == sections[1..][k - 1];
    }
  }

  /** Accepted text has exactly one `[Interface]`, one peer per `[Peer]`, and in each section only listed
      directives, none twice: hooks and shell directives never get through. */
  lemma AcceptedDirectives(lib: Library, text: string)
    requires Parse(lib, text).Ok?
    ensures ReadLines(Split(text, '\n'), []).Ok?
    ensures var sections := ReadLines(Split(text, '\n'), []).value;
            && (forall k :: 0 <= k < |sections| ==>
                  SectionOk(sections[k]) && forall l :: 0 <= l < |sections[k].fields| ==>
                    sections[k].fields[l].key !in FORBIDDEN_KEYS)
            && Interfaces(sections) == 1
            && |Parse(lib, text).value.peers| == |sections| - 1
  {
    hide ReadLines, Split, Build, Utf8Len, CheckPeerKeys, CheckPeerRoutes, Canonical;
    var sections := ReadLines(Split(text, '\n'), []).value;
    SectionsOk(lib, sections, None, []);
    forall k, l | 0 <= k < |sections| && 0 <= l < |sections[k].fields|
      ensures sections[k].fields[l].key !in FORBIDDEN_KEYS
    {
      assert SectionOk(sections[k]);
      NotForbidden(sections[k].fields[l].key);
      PeerKeysNotForbidden(sections[k].fields[l].key);
    }
  }

  lemma PeerKeysNotForbidden(key: string)
    ensures key in PEER_KEYS ==> key !in FORBIDDEN_KEYS
  {
    assert "PresharedKey"[3] == 's' && "PersistentKeepalive"[1] == 'e' && "PublicKey"[1] == 'u';
    assert "PreUp"[3] == 'U' && "PreDown"[3] == 'D' && "PostUp"[1] == 'o' && "PostDown"[1] == 'o';
  }
}
