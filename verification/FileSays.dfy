/** What the file of a node says, read back by the strict reader, in terms of the topology and the keys alone. */
module FileSays {
  import opened Outcomes
  import opened Text
  import opened Ipv4
  import opened Lib
  import opened Order
  import opened Topology
  import opened Validation
  import opened Fleet
  import opened WgQuick
  import opened Render
  import opened RenderTheorems
  import opened WgPrint
  import Hostname
  import WgRoundTrip

  /** The configuration read back from the file of `h`. */
  ghost predicate ReadsBack(lib: Library, topo: ValidatedTopology, keys: ResolvedKeys, h: string, c: ParsedConfig) {
    Rendered(lib, topo, keys, h).Ok? && Parse(lib, Rendered(lib, topo, keys, h).value) == Ok(c)
  }

  lemma ReadsIntended(lib: Library, topo: ValidatedTopology, keys: ResolvedKeys, l: nat, c: ParsedConfig)
    requires WellFormed(lib, topo) && KeysOk(lib, topo, keys) && l < |topo.nodes|
    requires ReadsBack(lib, topo, keys, topo.nodes[l].hostname, c)
    ensures Intended(topo, keys, topo.nodes[l].hostname) == Ok(c)
    ensures Ascending(Names(topo.nodes))
  {
    RenderingSucceeds(lib, topo, keys, l);
    hide KeysOk, Parse, Intended, FileText, FleetOk, NodeOk;
  }

  /** The file begins with the banner and the name of its node. */
  lemma FileBegins(lib: Library, topo: ValidatedTopology, keys: ResolvedKeys, l: nat)
    requires WellFormed(lib, topo) && KeysOk(lib, topo, keys) && l < |topo.nodes|
    requires Rendered(lib, topo, keys, topo.nodes[l].hostname).Ok?
    ensures var h := topo.nodes[l].hostname;
            var lines := Split(Rendered(lib, topo, keys, h).value, '\n');
            && |lines| > 4 && lines[0] == "# Managed by " + "wg-server -- " + "do not edit " + "manually."
            && lines[1] == "# Hostname: " + h && lines[2] == "" && lines[3] == "[Interface]"
  {
    RenderingSucceeds(lib, topo, keys, l);
    IntendedIsPrintable(lib, topo, keys, l);
    var h := topo.nodes[l].hostname;
    PeerNamesValid(lib, topo, h);
    IntendedShape(topo, keys, h);
    assert NodeOk(lib, topo.nodes[l]);
    HostnameOk(lib, topo.nodes[l]);
    hide WellFormed, NodeOk, KeysOk, Intended, PeerNames, Rendered, Split, Parse, Printable;
    PrintBegins(lib, h, PeerNames(topo, h), Intended(topo, keys, h).value);
  }

  lemma PrintBegins(lib: Library, host: string, names: seq<string>, c: ParsedConfig)
    requires |names| == |c.peers| && Printable(lib, c) && Hostname.IsValid(host)
    requires forall i :: 0 <= i < |names| ==> Hostname.IsValid(names[i])
    ensures var lines := Split(Print(host, names, c), '\n');
            && |lines| > 4 && lines[0] == "# Managed by " + "wg-server -- " + "do not edit " + "manually."
            && lines[1] == "# Hostname: " + host && lines[2] == "" && lines[3] == "[Interface]"
  {
    hide Split, Unlines, Hostname.IsValid, Printable;
    var lines := Lines(host, names, c);
    WgRoundTrip.LinesClean(lib, host, names, c);
    WgRoundTrip.CleanLacks(lines, '\n');
    SplitUnlines(lines);
  }

  /** A node with these settings sends a keepalive every `seconds` seconds: its setting, unless that is zero; without a
      setting, 25 if it has no endpoint that others could reach. */
  predicate SendsEvery(endpoint: Option<string>, setting: Option<u16>, seconds: u16) {
    || (setting == Some(seconds) && seconds > 0)
    || (setting.None? && endpoint.None? && seconds == 25)
  }

  /** The interface section: the node's own settings and private key. */
  lemma InterfaceSays(lib: Library, topo: ValidatedTopology, keys: ResolvedKeys, l: nat, c: ParsedConfig)
    requires WellFormed(lib, topo) && KeysOk(lib, topo, keys) && l < |topo.nodes|
    requires ReadsBack(lib, topo, keys, topo.nodes[l].hostname, c)
    ensures var n := topo.nodes[l];
            && n.hostname in keys.nodeKeys && c.interface.privateKey == keys.nodeKeys[n.hostname].0
            && c.interface.address == n.tunnelAddress && c.interface.listenPort == n.listenPort
            && c.interface.dns == n.dns && c.interface.mtu == n.mtu
  {
    ReadsIntended(lib, topo, keys, l, c);
    hide KeysOk, WellFormed, Parse, Intended, FileText, Rendered;
    IntendedInterface(topo, keys, l);
  }

  /** Node `k` is the peer in place `i` of the file. */
  ghost predicate IsPeer(topo: ValidatedTopology, keys: ResolvedKeys, c: ParsedConfig, k: nat, i: nat)
    requires k < |topo.nodes| && i < |c.peers|
  {
    topo.nodes[k].hostname in keys.nodeKeys && c.peers[i].publicKey == keys.nodeKeys[topo.nodes[k].hostname].1
  }

  /** Two nodes of which one is a master. */
  predicate IsLinked(topo: ValidatedTopology, l: nat, k: nat)
    requires l < |topo.nodes| && k < |topo.nodes|
  {
    && topo.nodes[l].hostname != topo.nodes[k].hostname
    && (topo.nodes[l].hostname in topo.masters || topo.nodes[k].hostname in topo.masters)
  }

  /** A peer section: the edge's key, the peer's endpoint, its tunnel address followed by its routes in ascending order,
      and the keepalive that this node's own settings ask for. */
  ghost predicate PeerSays(topo: ValidatedTopology, keys: ResolvedKeys, l: nat, k: nat, p: ParsedPeer)
    requires l < |topo.nodes| && k < |topo.nodes|
  {
    var n, m := topo.nodes[l], topo.nodes[k];
    && IsLinked(topo, l, k)
    && (forall e :: e == (n.hostname, m.hostname) || e == (m.hostname, n.hostname) ==>
          e in Edges(topo) ==> e in keys.edgePsks && p.presharedKey == keys.edgePsks[e])
    && p.endpoint == m.endpoint
    && |p.allowedIps| > 0 && p.allowedIps[0] == Net(m.tunnelAddress, 32)
    && multiset(p.allowedIps[1..]) == multiset(m.extraAllowedIps)
    && (forall i, j :: 1 <= i < j < |p.allowedIps| ==> p.allowedIps[i].addr < p.allowedIps[j].addr)
    && (forall seconds: u16 :: p.persistentKeepalive == Some(seconds) <==>
          SendsEvery(n.endpoint, n.persistentKeepalive, seconds))
  }

  /** Section `i` names a node and says of it what it should. */
  ghost predicate SaysOfSomeNode(topo: ValidatedTopology, keys: ResolvedKeys, l: nat, c: ParsedConfig, i: nat)
    requires l < |topo.nodes| && i < |c.peers|
  {
    exists k :: 0 <= k < |topo.nodes| && IsPeer(topo, keys, c, k, i) && PeerSays(topo, keys, l, k, c.peers[i])
  }

  lemma KeepaliveSays(n: ValidatedNode)
    ensures forall seconds: u16 :: LocalKeepalive(n) == Some(seconds) <==> SendsEvery(n.endpoint, n.persistentKeepalive, seconds)
  {
  }

  lemma RoutesSay(lib: Library, topo: ValidatedTopology, k: nat)
    requires WellFormed(lib, topo) && k < |topo.nodes|
    ensures var nets, m := AllowedNets(topo.nodes[k]), topo.nodes[k];
            && |nets| > 0 && nets[0] == Net(m.tunnelAddress, 32) && multiset(nets[1..]) == multiset(m.extraAllowedIps)
            && forall i, j :: 1 <= i < j < |nets| ==> nets[i].addr < nets[j].addr
  {
    hide Plain, EndpointOk, Network, RangeOf;
    var m := topo.nodes[k];
    FleetPair(topo.nodes, topo.masters, k, k);
    assert NodeOk(lib, m);
    hide WellFormed, FleetOk, NodeOk, NetBefore;
    var sorted := SortNets(m.extraAllowedIps);
    SortNetsMultiset(m.extraAllowedIps);
    DistinctRoutes(m);
    SortNetsRising(m.extraAllowedIps);
    assert AllowedNets(m)[1..] == sorted;
    SameMembers(sorted, m.extraAllowedIps);
    forall i, j | 0 <= i < j < |sorted| ensures sorted[i].addr < sorted[j].addr {
      assert NetBefore(sorted[i], sorted[j]);
      assert sorted[i] in m.extraAllowedIps && sorted[j] in m.extraAllowedIps;
      RoutesDiffer(m, sorted[i], sorted[j]);
    }
  }

  lemma DistinctRoutes(m: ValidatedNode)
    requires NoSelfOverlap(m)
    ensures DistinctKeys(m.extraAllowedIps)
  {
    hide NetBefore, RangeOf, Overlap;
    var nets, apart := m.extraAllowedIps, (x: Net, y: Net) => NetBefore(x, y) || NetBefore(y, x);
    forall i, k | 0 <= i < |nets| && 0 <= k < |nets| && i != k ensures apart(nets[i], nets[k]) {
      if i < k {
        ApartHaveDistinctKeys(nets[i], nets[k]);
      } else {
        ApartHaveDistinctKeys(nets[k], nets[i]);
      }
    }
  }

  lemma RoutesDiffer(m: ValidatedNode, a: Net, b: Net)
    requires NoSelfOverlap(m) && a in m.extraAllowedIps && b in m.extraAllowedIps && NetBefore(a, b)
    requires Ipv4.IsCanonical(a) && Ipv4.IsCanonical(b)
    ensures a.addr < b.addr
  {
    var nets := m.extraAllowedIps;
    var i :| 0 <= i < |nets| && nets[i] == a;
    var k :| 0 <= k < |nets| && nets[k] == b;
    RangeNonEmpty(a);
    RangeNonEmpty(b);
    hide Network;
  }

  lemma PeerSaysAt(lib: Library, topo: ValidatedTopology, keys: ResolvedKeys, l: nat, c: ParsedConfig, i: nat)
    returns (k: nat)
    requires WellFormed(lib, topo) && KeysOk(lib, topo, keys) && l < |topo.nodes|
    requires Intended(topo, keys, topo.nodes[l].hostname) == Ok(c) && Ascending(Names(topo.nodes)) && i < |c.peers|
    ensures k < |topo.nodes| && IsPeer(topo, keys, c, k, i) && PeerSays(topo, keys, l, k, c.peers[i])
    ensures i < |PeerNodes(topo.nodes, topo.masters, topo.nodes[l].hostname)|
    ensures PeerNodes(topo.nodes, topo.masters, topo.nodes[l].hostname)[i] == topo.nodes[k]
  {
    hide OnePeer, PeerNodes, Peers, Lookup, Intended, AllowedNets, FleetOk, NodeOk, KeysOk, LocalKeepalive, EdgeSet, Less;
    k := PeerInFile(topo, keys, l, i);
    OnePeerShape(keys, topo.nodes[l], topo.nodes[k]);
    RoutesSay(lib, topo, k);
    KeepaliveSays(topo.nodes[l]);
    EdgeOfPair(topo, topo.nodes[l].hostname, topo.nodes[k].hostname);
  }

  lemma EdgeOfPair(topo: ValidatedTopology, a: string, b: string)
    ensures forall e :: (e == (a, b) || e == (b, a)) && e in Edges(topo) ==> e == CanonicalPair(a, b)
  {
    LessTotal(a, b);
    if Less(a, b) {
      LessAsymmetric(a, b);
    }
    if Less(b, a) {
      LessAsymmetric(b, a);
    }
  }

  /** The file lists the nodes that share an edge with this one, each once, in the order of their names; each section
      says what it should. */
  lemma PeersSay(lib: Library, topo: ValidatedTopology, keys: ResolvedKeys, l: nat, c: ParsedConfig)
    requires WellFormed(lib, topo) && KeysOk(lib, topo, keys) && l < |topo.nodes|
    requires ReadsBack(lib, topo, keys, topo.nodes[l].hostname, c)
    ensures forall i :: 0 <= i < |c.peers| ==> SaysOfSomeNode(topo, keys, l, c, i)
    ensures forall k :: 0 <= k < |topo.nodes| && IsLinked(topo, l, k) ==>
              exists i :: 0 <= i < |c.peers| && IsPeer(topo, keys, c, k, i)
    ensures forall i, j, k, m :: 0 <= i < j < |c.peers| && 0 <= k < |topo.nodes| && 0 <= m < |topo.nodes| ==>
              IsPeer(topo, keys, c, k, i) && IsPeer(topo, keys, c, m, j) ==> k < m
  {
    hide WellFormed, KeysOk, ReadsBack, PeerNodes, PeerSays, IsPeer, Intended;
    ReadsIntended(lib, topo, keys, l, c);
    var h := topo.nodes[l].hostname;
    forall i | 0 <= i < |c.peers| ensures SaysOfSomeNode(topo, keys, l, c, i) {
      var k := PeerSaysAt(lib, topo, keys, l, c, i);
    }
    IntendedShape(topo, keys, h);
    forall k | 0 <= k < |topo.nodes| && IsLinked(topo, l, k)
      ensures exists i :: 0 <= i < |c.peers| && IsPeer(topo, keys, c, k, i)
    {
      var i := NodeIsPeer(topo, h, k);
      var m := PeerSaysAt(lib, topo, keys, l, c, i);
      SameNode(topo, m, k);
    }
    forall i, j, k, m | 0 <= i < j < |c.peers| && 0 <= k < |topo.nodes| && 0 <= m < |topo.nodes|
      && IsPeer(topo, keys, c, k, i) && IsPeer(topo, keys, c, m, j)
      ensures k < m
    {
      PeersAscend(lib, topo, keys, l, c, i, j, k, m);
    }
  }

  lemma SameNode(topo: ValidatedTopology, k: nat, m: nat)
    requires Ascending(Names(topo.nodes)) && k < |topo.nodes| && m < |topo.nodes|
    ensures topo.nodes[k] == topo.nodes[m] ==> k == m
  {
    AscendingIsDistinct(topo.nodes);
  }

  lemma PeersAscend(lib: Library, topo: ValidatedTopology, keys: ResolvedKeys, l: nat, c: ParsedConfig, i: nat, j: nat,
                    k: nat, m: nat)
    requires WellFormed(lib, topo) && KeysOk(lib, topo, keys) && l < |topo.nodes| && Ascending(Names(topo.nodes))
    requires Intended(topo, keys, topo.nodes[l].hostname) == Ok(c) && i < j < |c.peers|
    requires k < |topo.nodes| && m < |topo.nodes| && IsPeer(topo, keys, c, k, i) && IsPeer(topo, keys, c, m, j)
    ensures k < m
  {
    hide WellFormed, KeysOk, PeerNodes, PeerSays, Intended, Less;
    var h := topo.nodes[l].hostname;
    var p := PeerSaysAt(lib, topo, keys, l, c, i);
    var q := PeerSaysAt(lib, topo, keys, l, c, j);
    PeerKeyIs(lib, topo, keys, p, k);
    PeerKeyIs(lib, topo, keys, q, m);
    PeerNodesAscending(topo.nodes, topo.masters, h);
    var peers := PeerNodes(topo.nodes, topo.masters, h);
    assert Less(Names(peers)[i], Names(peers)[j]);
    LessIrreflexive(topo.nodes[k].hostname);
    if m < k {
      assert Less(Names(topo.nodes)[m], Names(topo.nodes)[k]);
      LessAsymmetric(topo.nodes[m].hostname, topo.nodes[k].hostname);
    }
  }
}
