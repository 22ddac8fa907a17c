/** The renderer as it runs: it collects the peers of a node from the edge set, appends line after line to
    a string, and reads the result back before returning it. Proved to compute `Render.Rendered`. */
module Renderer {
  import opened Outcomes
  import opened Text
  import opened Ipv4
  import opened Lib
  import opened Order
  import opened Topology
  import opened Validation
  import opened WgQuick
  import opened WgPrint
  import opened Render
  import WgReader

  /** Appending a line and its newline. */
  lemma OneLine(out: string, lines: seq<string>, line: string)
    requires out == Unlines(lines)
    ensures out + line + "\n" == Unlines(lines + [line])
  {
    UnlinesAppend(lines, [line]);
    UnlinesOne(line);
    assert out + line + "\n" == out + (line + "\n");
  }

  /** Appending the line of a directive. */
  lemma OneField(out: string, head: seq<string>, fields: seq<Field>, f: Field)
    requires out == Unlines(head + FieldLines(fields))
    ensures out + FieldLine(f) + "\n" == Unlines(head + FieldLines(fields + [f]))
  {
    hide Unlines, FieldLine;
    OneLine(out, head + FieldLines(fields), FieldLine(f));
    assert FieldLines(fields + [f]) == FieldLines(fields) + [FieldLine(f)];
    assert head + FieldLines(fields + [f]) == head + FieldLines(fields) + [FieldLine(f)];
  }

  method RenderInterface(h: string, node: ValidatedNode, privateKey: string) returns (out: string)
    ensures out == Unlines(InterfaceLines(h, InterfaceEntry(node, privateKey)))
  {
    hide Unlines, PrintNat, PrintNet, Host, FieldLine;
    UnlinesOne(BANNER);
    out := BANNER + "\n";
    OneLine(out, [BANNER], "# Hostname: " + h);
    out := out + ("# Hostname: " + h) + "\n";
    OneLine(out, [BANNER] + ["# Hostname: " + h], "");
    out := out + "" + "\n";
    OneLine(out, [BANNER] + ["# Hostname: " + h] + [""], "[Interface]");
    out := out + "[Interface]" + "\n";
    ghost var head := [BANNER, "# Hostname: " + h, "", "[Interface]"];
    ghost var fields: seq<Field> := [];
    assert head + FieldLines(fields) == [BANNER] + ["# Hostname: " + h] + [""] + ["[Interface]"];
    var f := Field("PrivateKey", privateKey);
    OneField(out, head, fields, f);
    out, fields := out + FieldLine(f) + "\n", fields + [f];
    f := Field("Address", PrintNet(Host(node.tunnelAddress)));
    OneField(out, head, fields, f);
    out, fields := out + FieldLine(f) + "\n", fields + [f];
    f := Field("ListenPort", PrintNat(node.listenPort));
    OneField(out, head, fields, f);
    out, fields := out + FieldLine(f) + "\n", fields + [f];
    if node.dns.Some? {
      f := Field("DNS", node.dns.value);
      OneField(out, head, fields, f);
      out, fields := out + FieldLine(f) + "\n", fields + [f];
    }
    if node.mtu.Some? {
      f := Field("MTU", PrintNat(node.mtu.value));
      OneField(out, head, fields, f);
      out, fields := out + FieldLine(f) + "\n", fields + [f];
    }
    assert fields == InterfaceFieldList(InterfaceEntry(node, privateKey));
  }

  /** A block of a `[Peer]` section. */
  method RenderPeer(name: string, p: ParsedPeer) returns (out: string)
    ensures out == Unlines(PeerLines(name, p))
  {
    hide Unlines, PrintNat, CommaList, NetTexts, FieldLine;
    UnlinesOne("");
    out := "" + "\n";
    OneLine(out, [""], "[Peer]");
    out := out + "[Peer]" + "\n";
    OneLine(out, [""] + ["[Peer]"], "# " + name);
    out := out + ("# " + name) + "\n";
    ghost var head := ["", "[Peer]", "# " + name];
    ghost var fields: seq<Field> := [];
    assert head + FieldLines(fields) == [""] + ["[Peer]"] + ["# " + name];
    var f := Field("PublicKey", p.publicKey);
    OneField(out, head, fields, f);
    out, fields := out + FieldLine(f) + "\n", fields + [f];
    f := Field("PresharedKey", p.presharedKey);
    OneField(out, head, fields, f);
    out, fields := out + FieldLine(f) + "\n", fields + [f];
    f := Field("AllowedIPs", CommaList(NetTexts(p.allowedIps)));
    OneField(out, head, fields, f);
    out, fields := out + FieldLine(f) + "\n", fields + [f];
    if p.endpoint.Some? {
      f := Field("Endpoint", p.endpoint.value);
      OneField(out, head, fields, f);
      out, fields := out + FieldLine(f) + "\n", fields + [f];
    }
    if p.persistentKeepalive.Some? {
      f := Field("PersistentKeepalive", PrintNat(p.persistentKeepalive.value));
      OneField(out, head, fields, f);
      out, fields := out + FieldLine(f) + "\n", fields + [f];
    }
    assert fields == PeerFieldList(p);
  }

  // -------------------------------------------------------------------
  // Peers
  // -------------------------------------------------------------------

  /** The other ends of the edges at `h`, sorted. */
  method PeerHosts(edges: set<Edge>, h: string) returns (hosts: seq<string>)
    requires forall e :: e in edges ==> Less(e.0, e.1)
    ensures Ascending(hosts)
    ensures forall p :: p in hosts <==> (h, p) in edges || (p, h) in edges
  {
    hide InsertName;
    hosts := [];
    var left := edges;
    while left != {}
      invariant left <= edges && Ascending(hosts)
      invariant forall p :: p in hosts <==> (h, p) in edges - left || (p, h) in edges - left
      decreases |left|
    {
      var e :| e in left;
      left := left - {e};
      if e.0 == h || e.1 == h {
        var other := if e.0 == h then e.1 else e.0;
        FreshPeer(edges, h, e);
        InsertNameAscending(hosts, other);
        hosts := InsertName(hosts, other);
      }
    }
  }

  lemma FreshPeer(edges: set<Edge>, h: string, e: Edge)
    requires forall f :: f in edges ==> Less(f.0, f.1)
    requires e in edges && (e.0 == h || e.1 == h)
    ensures e.0 != e.1
    ensures e.0 == h ==> (e.1, h) !in edges
    ensures e.1 == h ==> (h, e.0) !in edges
  {
    LessIrreflexive(e.0);
    LessAsymmetric(e.0, e.1);
  }

  /** The sorted edge ends are the names of the peer nodes. */
  lemma PeerByName(topo: ValidatedTopology, h: string, p: string)
    requires h in Names(topo.nodes)
    ensures p in PeerNames(topo, h) <==> p in Names(topo.nodes) && Adjacent(h, p, topo.masters)
  {
    PeerNodesMembers(topo.nodes, topo.masters, h);
    hide Adjacent, PeerNodes;
    var peers := PeerNodes(topo.nodes, topo.masters, h);
    if p in PeerNames(topo, h) {
      var i :| 0 <= i < |peers| && Names(peers)[i] == p;
      assert peers[i] in peers;
      var k :| 0 <= k < |topo.nodes| && topo.nodes[k] == peers[i];
      assert Names(topo.nodes)[k] == p;
    }
    if p in Names(topo.nodes) && Adjacent(h, p, topo.masters) {
      var k :| 0 <= k < |topo.nodes| && Names(topo.nodes)[k] == p;
      assert topo.nodes[k] in peers;
      var i :| 0 <= i < |peers| && peers[i] == topo.nodes[k];
      assert Names(peers)[i] == p;
    }
  }

  lemma HostsArePeers(topo: ValidatedTopology, h: string, hosts: seq<string>)
    requires Ascending(Names(topo.nodes)) && h in Names(topo.nodes) && Ascending(hosts)
    requires var edges := EdgeSet(HostSet(Names(topo.nodes)), topo.masters);
             forall p :: p in hosts <==> (h, p) in edges || (p, h) in edges
    ensures hosts == PeerNames(topo, h)
  {
    PeerNodesAscending(topo.nodes, topo.masters, h);
    hide Adjacent, PeerNodes, EdgeSet, HostSet;
    forall p ensures p in hosts <==> p in PeerNames(topo, h) {
      EdgeIffPeer(topo, h, p);
      PeerByName(topo, h, p);
    }
    AscendingUnique(hosts, PeerNames(topo, h));
  }

  lemma EdgeIffPeer(topo: ValidatedTopology, h: string, p: string)
    requires h in Names(topo.nodes)
    ensures var edges := EdgeSet(HostSet(Names(topo.nodes)), topo.masters);
            (h, p) in edges || (p, h) in edges <==> p in Names(topo.nodes) && Adjacent(h, p, topo.masters)
  {
    var hosts, edges := HostSet(Names(topo.nodes)), EdgeSet(HostSet(Names(topo.nodes)), topo.masters);
    if p in hosts && Adjacent(h, p, topo.masters) {
      EdgeMember(hosts, topo.masters, h, p);
    }
    if (h, p) in edges {
      EdgeEnds(hosts, topo.masters, (h, p));
    }
    if (p, h) in edges {
      EdgeEnds(hosts, topo.masters, (p, h));
    }
  }

  lemma EdgesAreOrdered(hosts: set<string>, masters: set<string>)
    ensures forall e :: e in EdgeSet(hosts, masters) ==> Less(e.0, e.1)
  {
  }

  // -------------------------------------------------------------------
  // Rendering
  // -------------------------------------------------------------------

  lemma {:induction false} PeersFrom(keys: ResolvedKeys, local: ValidatedNode, nodes: seq<ValidatedNode>, typed: seq<ParsedPeer>)
    requires |typed| <= |nodes| && forall k :: 0 <= k < |typed| ==> OnePeer(keys, local, nodes[k]) == Ok(typed[k])
    ensures |typed| == |nodes| ==> Peers(keys, local, nodes) == Ok(typed)
    ensures |typed| < |nodes| && OnePeer(keys, local, nodes[|typed|]).Err? ==>
              Peers(keys, local, nodes) == Err(OnePeer(keys, local, nodes[|typed|]).error)
  {
    hide OnePeer;
    if |typed| > 0 {
      PeersFrom(keys, local, nodes[1..], typed[1..]);
      assert typed == [typed[0]] + typed[1..];
    }
  }

  lemma {:induction false} PeerLinesAppend(names: seq<string>, peers: seq<ParsedPeer>, name: string, p: ParsedPeer)
    requires |names| == |peers|
    ensures AllPeerLines(names + [name], peers + [p]) == AllPeerLines(names, peers) + PeerLines(name, p)
  {
    hide PeerLines;
    if |peers| == 0 {
      assert AllPeerLines([], []) == [];
      assert (names + [name])[1..] == [] && (peers + [p])[1..] == [];
    } else {
      assert (names + [name])[1..] == names[1..] + [name] && (peers + [p])[1..] == peers[1..] + [p];
      PeerLinesAppend(names[1..], peers[1..], name, p);
    }
  }

  method RenderPeers(topo: ValidatedTopology, keys: ResolvedKeys, node: ValidatedNode, hosts: seq<string>)
    returns (r: Result<string, RenderError>)
    requires Ascending(Names(topo.nodes)) && hosts == PeerNames(topo, node.hostname)
    ensures var peers := Peers(keys, node, PeerNodes(topo.nodes, topo.masters, node.hostname));
            && (peers.Err? ==> r == Err(peers.error))
            && (peers.Ok? ==> r == Ok(Unlines(AllPeerLines(hosts, peers.value))))
  {
    hide Unlines, OnePeer, Peers, AllPeerLines, PeerNodes, Lookup;
    ghost var nodes := PeerNodes(topo.nodes, topo.masters, node.hostname);
    var out := "";
    ghost var typed: seq<ParsedPeer> := [];
    assert AllPeerLines([], []) == [] && Unlines([]) == "" by { Nothing(); }
    for i := 0 to |hosts|
      invariant |typed| == i && forall k :: 0 <= k < i ==> OnePeer(keys, node, nodes[k]) == Ok(typed[k])
      invariant out == Unlines(AllPeerLines(hosts[..i], typed))
    {
      PeersFrom(keys, node, nodes, typed);
      PeerIsFound(topo, node.hostname, i);
      var peer := Lookup(topo.nodes, hosts[i]);
      assert peer.Some?; // the lookup of a peer by name never fails
      var entry := OnePeer(keys, node, peer.value);
      if entry.Err? {
        return Err(entry.error);
      }
      var block := RenderPeer(hosts[i], entry.value);
      PeerLinesAppend(hosts[..i], typed, hosts[i], entry.value);
      UnlinesAppend(AllPeerLines(hosts[..i], typed), PeerLines(hosts[i], entry.value));
      assert hosts[..i + 1] == hosts[..i] + [hosts[i]];
      out := out + block;
      typed := typed + [entry.value];
    }
    assert hosts[..|hosts|] == hosts;
    PeersFrom(keys, node, nodes, typed);
    r := Ok(out);
  }

  lemma Nothing()
    ensures AllPeerLines([], []) == [] && Unlines([]) == ""
  {
  }

  /** The lookup of a peer by name cannot fail. */
  lemma PeerIsFound(topo: ValidatedTopology, h: string, i: nat)
    requires Ascending(Names(topo.nodes)) && i < |PeerNames(topo, h)|
    ensures Lookup(topo.nodes, PeerNames(topo, h)[i]) == Some(PeerNodes(topo.nodes, topo.masters, h)[i])
  {
    var peers := PeerNodes(topo.nodes, topo.masters, h);
    PeerNodesMembers(topo.nodes, topo.masters, h);
    assert peers[i] in peers;
    var k :| 0 <= k < |topo.nodes| && topo.nodes[k] == peers[i];
    AscendingIsDistinct(topo.nodes);
    LookupFinds(topo.nodes, k);
  }

  method RenderNodeConfig(lib: Library, topo: ValidatedTopology, keys: ResolvedKeys, h: string)
    returns (r: Result<string, RenderError>)
    requires Ascending(Names(topo.nodes))
    ensures r == Rendered(lib, topo, keys, h)
  {
    hide Unlines, Peers, AllPeerLines, PeerNodes, Lookup, InterfaceLines, EdgeSet, Parse, Utf8Len;
    var found := Lookup(topo.nodes, h);
    LookupFails(topo.nodes, h);
    if found.None? {
      return Err(UnknownHostname(h));
    }
    if h !in keys.nodeKeys {
      return Err(MissingNodeKey(h));
    }
    var out := RenderInterface(h, found.value, keys.nodeKeys[h].0);
    AscendingIsDistinct(topo.nodes);
    var edges := ComputeEdges(Names(topo.nodes), topo.masters);
    EdgesAreOrdered(HostSet(Names(topo.nodes)), topo.masters);
    var hosts := PeerHosts(edges, h);
    HostsArePeers(topo, h, hosts);
    var blocks := RenderPeers(topo, keys, found.value, hosts);
    if blocks.Err? {
      return Err(blocks.error);
    }
    ghost var c := Intended(topo, keys, h).value;
    UnlinesAppend(InterfaceLines(h, c.interface), AllPeerLines(hosts, c.peers));
    out := out + blocks.value;
    assert out == FileText(topo, keys, h);
    if Utf8Len(out) > MAX_CONFIG_BYTES {
      return Err(OversizedFile(h, Utf8Len(out)));
    }
    var parsed := WgReader.ParseWgQuick(lib, out);
    r := if parsed.Err? then Err(SelfValidationFailed(h, parsed.error)) else Ok(out);
  }
}
