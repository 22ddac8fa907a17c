/** The strict reader as it runs: loops over lines, sections, directives, list entries and peers, each
    proved to compute its function in `WgQuick`. */
module WgReader {
  import opened Outcomes
  import opened Text
  import opened Ipv4
  import opened Lib
  import opened Topology
  import opened WgQuick

  method ReadSections(text: string) returns (r: Result<seq<Section>, ParseError>)
    ensures r == ReadLines(Split(text, '\n'), [])
  {
    hide ReadLine, Split;
    var lines := Split(text, '\n');
    var sections: seq<Section> := [];
    for i := 0 to |lines|
      invariant ReadLines(lines, []) == ReadLines(lines[i..], sections)
    {
      assert lines[i..][1..] == lines[i + 1..];
      var next := ReadLine(lines[i], sections);
      if next.Err? {
        return Err(next.error);
      }
      sections := next.value;
    }
    r := Ok(sections);
  }

  method ParseInterfaceFields(lib: Library, fields: seq<Field>) returns (r: Result<ParsedInterface, ParseError>)
    ensures r == InterfaceOf(lib, fields)
  {
    hide SetInterfaceField, CheckKey;
    var seen: set<string> := {};
    var acc := NO_INTERFACE_FIELDS;
    for i := 0 to |fields|
      invariant ReadInterface(lib, fields, {}, NO_INTERFACE_FIELDS) == ReadInterface(lib, fields[i..], seen, acc)
    {
      assert fields[i..][1..] == fields[i + 1..];
      var bad := CheckKey(fields[i].key, INTERFACE_KEYS, FORBIDDEN_KEYS, seen);
      if bad.Some? {
        return Err(bad.value);
      }
      seen := seen + {fields[i].key};
      var next := SetInterfaceField(lib, acc, fields[i]);
      if next.Err? {
        return Err(next.error);
      }
      acc := next.value;
    }
    r := FinishInterface(acc);
  }

  method ParseAllowedIps(value: string) returns (r: Result<seq<Net>, ParseError>)
    ensures r == ParseAllowed(Split(value, ','), [])
  {
    hide ParseNet, Network;
    var entries := Split(value, ',');
    var nets: seq<Net> := [];
    for i := 0 to |entries|
      invariant ParseAllowed(entries, []) == ParseAllowed(entries[i..], nets)
    {
      assert entries[i..][1..] == entries[i + 1..];
      var entry := TrimBlanks(entries[i]);
      var net := ParseNet(entry);
      if net.None? || !Ipv4.IsCanonical(net.value) {
        return Err(InvalidAllowedIps(entry));
      }
      if net.value.prefix == 0 {
        return Err(ParseError.DefaultRouteRejected);
      }
      nets := nets + [net.value];
    }
    r := Ok(nets);
  }

  /** One `[Peer]` directive. */
  method ParsePeerField(lib: Library, acc: PeerFields, f: Field) returns (r: Result<PeerFields, ParseError>)
    ensures r == SetPeerField(lib, acc, f)
  {
    hide ParseAllowed, Split, EndpointOk, ParseU16;
    if f.key == "AllowedIPs" && |f.value| > 0 {
      var nets := ParseAllowedIps(f.value);
      return if nets.Err? then Err(nets.error) else Ok(acc.(allowedIps := Some(nets.value)));
    }
    r := SetPeerField(lib, acc, f);
  }

  method ParsePeerFields(lib: Library, fields: seq<Field>) returns (r: Result<ParsedPeer, ParseError>)
    ensures r == PeerOf(lib, fields)
  {
    hide SetPeerField, CheckKey;
    var seen: set<string> := {};
    var acc := NO_PEER_FIELDS;
    for i := 0 to |fields|
      invariant ReadPeer(lib, fields, {}, NO_PEER_FIELDS) == ReadPeer(lib, fields[i..], seen, acc)
    {
      assert fields[i..][1..] == fields[i + 1..];
      var bad := CheckKey(fields[i].key, PEER_KEYS, {}, seen);
      if bad.Some? {
        return Err(bad.value);
      }
      seen := seen + {fields[i].key};
      var next := ParsePeerField(lib, acc, fields[i]);
      if next.Err? {
        return Err(next.error);
      }
      acc := next.value;
    }
    r := FinishPeer(acc);
  }

  method ReadConfig(lib: Library, sections: seq<Section>) returns (r: Result<ParsedConfig, ParseError>)
    ensures r == Build(lib, sections, None, [])
  {
    hide InterfaceOf, PeerOf;
    var interface: Option<ParsedInterface> := None;
    var peers: seq<ParsedPeer> := [];
    for i := 0 to |sections|
      invariant Build(lib, sections, None, []) == Build(lib, sections[i..], interface, peers)
    {
      assert sections[i..][1..] == sections[i + 1..];
      if sections[i].name.Interface? {
        if interface.Some? {
          return Err(DuplicateSection);
        }
        var parsed := ParseInterfaceFields(lib, sections[i].fields);
        if parsed.Err? {
          return Err(parsed.error);
        }
        interface := Some(parsed.value);
      } else {
        var parsed := ParsePeerFields(lib, sections[i].fields);
        if parsed.Err? {
          return Err(parsed.error);
        }
        peers := peers + [parsed.value];
      }
    }
    r := if interface.None? then Err(MissingInterface) else Ok(ParsedConfig(interface.value, peers));
  }

  method CheckKeys(local: string, peers: seq<ParsedPeer>) returns (bad: Option<ParseError>)
    ensures bad == CheckPeerKeys(local, peers, {})
  {
    var seen: set<string> := {};
    for i := 0 to |peers|
      invariant CheckPeerKeys(local, peers, {}) == CheckPeerKeys(local, peers[i..], seen)
    {
      assert peers[i..][1..] == peers[i + 1..];
      if peers[i].publicKey == local {
        return Some(PeerMatchesLocalKey);
      }
      if peers[i].publicKey in seen {
        return Some(DuplicatePeerPublicKey);
      }
      seen := seen + {peers[i].publicKey};
    }
    bad := None;
  }

  method CoveredBy(p: ParsedPeer, address: Addr) returns (covered: bool)
    ensures covered <==> CoversAddress(p, address)
  {
    hide RangeOf;
    for i := 0 to |p.allowedIps|
      invariant forall k :: 0 <= k < i ==> !Contains(RangeOf(p.allowedIps[k]), address)
    {
      if Contains(RangeOf(p.allowedIps[i]), address) {
        return true;
      }
    }
    covered := false;
  }

  method Overlapping(p: ParsedPeer, q: ParsedPeer) returns (overlap: bool)
    ensures overlap <==> PeersOverlap(p, q)
  {
    hide RangeOf, Overlap;
    var a, b := p.allowedIps, q.allowedIps;
    for i := 0 to |a|
      invariant forall k, l :: 0 <= k < i && 0 <= l < |b| ==> !Overlap(RangeOf(a[k]), RangeOf(b[l]))
    {
      for j := 0 to |b|
        invariant forall l :: 0 <= l < j ==> !Overlap(RangeOf(a[i]), RangeOf(b[l]))
      {
        if Overlap(RangeOf(a[i]), RangeOf(b[j])) {
          return true;
        }
      }
    }
    overlap := false;
  }

  method CheckRoutes(address: Addr, peers: seq<ParsedPeer>) returns (bad: Option<ParseError>)
    ensures bad == CheckPeerRoutes(address, peers)
  {
    hide CoversAddress, PeersOverlap;
    for i := 0 to |peers|
      invariant CheckPeerRoutes(address, peers) == CheckPeerRoutes(address, peers[i..])
    {
      assert peers[i..][1..] == peers[i + 1..];
      var covered := CoveredBy(peers[i], address);
      if covered {
        return Some(RouteCoversLocalAddress);
      }
      for j := i + 1 to |peers|
        invariant forall k :: 0 < k < j - i ==> !PeersOverlap(peers[i], peers[i..][k])
      {
        var overlap := Overlapping(peers[i], peers[j]);
        assert peers[i..][j - i] == peers[j];
        if overlap {
          return Some(OverlappingAllowedIps);
        }
      }
    }
    bad := None;
  }

  method ParseWgQuick(lib: Library, text: string) returns (r: Result<ParsedConfig, ParseError>)
    ensures r == Parse(lib, text)
  {
    hide ReadLines, Build, CheckPeerKeys, CheckPeerRoutes;
    if Utf8Len(text) > MAX_CONFIG_BYTES {
      return Err(TooLarge(Utf8Len(text)));
    }
    if !Lacks(text, '\0') {
      return Err(ControlCharacter);
    }
    var sections := ReadSections(text);
    if sections.Err? {
      return Err(sections.error);
    }
    r := ReadConfig(lib, sections.value);
    if r.Err? {
      return;
    }
    var bad := CheckKeys(lib.publicOf(Canonical(r.value.interface.privateKey)), r.value.peers);
    if bad.None? {
      bad := CheckRoutes(r.value.interface.address, r.value.peers);
    }
    if bad.Some? {
      r := Err(bad.value);
    }
  }
}
