/** What rendering guarantees: files that read back exactly, routing that follows ownership, and bytes that
    do not depend on the order in which routes are listed. */
module RenderTheorems {
  import opened Outcomes
  import opened Text
  import opened Ipv4
  import opened Lib
  import opened Order
  import opened Topology
  import opened Validation
  import opened Validator
  import opened Fleet
  import opened WgQuick
  import opened WgPrint
  import opened Render
  import WgRoundTrip
  import Hostname

  // -------------------------------------------------------------------
  // Valid keys
  // -------------------------------------------------------------------

  ghost predicate NodeKeyOk(lib: Library, keys: ResolvedKeys, h: string) {
    && h in keys.nodeKeys
    && lib.validKey(keys.nodeKeys[h].0)
    && keys.nodeKeys[h].1 == lib.publicOf(keys.nodeKeys[h].0)
  }

  ghost predicate PskOk(lib: Library, keys: ResolvedKeys, e: Edge) {
    e in keys.edgePsks && lib.validKey(keys.edgePsks[e])
  }

  ghost function Edges(topo: ValidatedTopology): set<Edge> {
    EdgeSet(HostSet(Names(topo.nodes)), topo.masters)
  }

  /** Every node has a valid key pair, public keys differ, and every edge has a valid preshared key. */
  ghost predicate KeysOk(lib: Library, topo: ValidatedTopology, keys: ResolvedKeys) {
    && (forall i :: 0 <= i < |topo.nodes| ==> NodeKeyOk(lib, keys, topo.nodes[i].hostname))
    && (forall i, k :: 0 <= i < k < |topo.nodes| ==>
          keys.nodeKeys[topo.nodes[i].hostname].1 != keys.nodeKeys[topo.nodes[k].hostname].1)
    && forall e :: e in Edges(topo) ==> PskOk(lib, keys, e)
  }

  // -------------------------------------------------------------------
  // The intended configuration exists and is printable
  // -------------------------------------------------------------------

  lemma PeerIsNode(topo: ValidatedTopology, h: string, i: nat) returns (k: nat)
    requires i < |PeerNodes(topo.nodes, topo.masters, h)|
    ensures k < |topo.nodes| && topo.nodes[k] == PeerNodes(topo.nodes, topo.masters, h)[i]
    ensures Adjacent(h, topo.nodes[k].hostname, topo.masters)
  {
    var peers := PeerNodes(topo.nodes, topo.masters, h);
    PeerNodesMembers(topo.nodes, topo.masters, h);
    assert peers[i] in peers;
    k :| 0 <= k < |topo.nodes| && topo.nodes[k] == peers[i];
  }

  lemma NodeIsPeer(topo: ValidatedTopology, h: string, k: nat) returns (i: nat)
    requires k < |topo.nodes| && Adjacent(h, topo.nodes[k].hostname, topo.masters)
    ensures i < |PeerNodes(topo.nodes, topo.masters, h)|
    ensures PeerNodes(topo.nodes, topo.masters, h)[i] == topo.nodes[k]
  {
    var peers := PeerNodes(topo.nodes, topo.masters, h);
    PeerNodesMembers(topo.nodes, topo.masters, h);
    assert topo.nodes[k] in peers;
    i :| 0 <= i < |peers| && peers[i] == topo.nodes[k];
  }

  lemma EdgeHasPsk(lib: Library, topo: ValidatedTopology, keys: ResolvedKeys, i: nat, k: nat)
    requires KeysOk(lib, topo, keys) && i < |topo.nodes| && k < |topo.nodes|
    requires Adjacent(topo.nodes[i].hostname, topo.nodes[k].hostname, topo.masters)
    ensures PskOk(lib, keys, CanonicalPair(topo.nodes[i].hostname, topo.nodes[k].hostname))
  {
    var a, b := topo.nodes[i].hostname, topo.nodes[k].hostname;
    assert Names(topo.nodes)[i] == a && Names(topo.nodes)[k] == b;
    EdgeMember(HostSet(Names(topo.nodes)), topo.masters, a, b);
  }

  lemma OnePeerOk(lib: Library, topo: ValidatedTopology, keys: ResolvedKeys, i: nat, k: nat)
    requires KeysOk(lib, topo, keys) && i < |topo.nodes| && k < |topo.nodes|
    requires Adjacent(topo.nodes[i].hostname, topo.nodes[k].hostname, topo.masters)
    ensures OnePeer(keys, topo.nodes[i], topo.nodes[k]).Ok?
  {
    EdgeHasPsk(lib, topo, keys, i, k);
    assert NodeKeyOk(lib, keys, topo.nodes[k].hostname);
    hide KeysOk;
  }

  lemma {:induction false} PeersExist(keys: ResolvedKeys, local: ValidatedNode, nodes: seq<ValidatedNode>)
    requires forall k :: 0 <= k < |nodes| ==> OnePeer(keys, local, nodes[k]).Ok?
    ensures Peers(keys, local, nodes).Ok?
  {
    hide OnePeer;
    if |nodes| > 0 {
      PeersExist(keys, local, nodes[1..]);
    }
  }

  lemma {:induction false} PeersAt(keys: ResolvedKeys, local: ValidatedNode, nodes: seq<ValidatedNode>, i: nat)
    requires Peers(keys, local, nodes).Ok? && i < |nodes|
    ensures OnePeer(keys, local, nodes[i]) == Ok(Peers(keys, local, nodes).value[i])
  {
    hide OnePeer;
    if i > 0 {
      PeersAt(keys, local, nodes[1..], i - 1);
    }
  }

  /** With keys for every node and edge the intended configuration exists. */
  lemma IntendedExists(lib: Library, topo: ValidatedTopology, keys: ResolvedKeys, l: nat)
    requires Ascending(Names(topo.nodes)) && KeysOk(lib, topo, keys) && l < |topo.nodes|
    ensures Intended(topo, keys, topo.nodes[l].hostname).Ok?
    ensures Lookup(topo.nodes, topo.nodes[l].hostname) == Some(topo.nodes[l])
  {
    hide OnePeer, PeerNodes, Adjacent, Peers;
    var h := topo.nodes[l].hostname;
    AscendingIsDistinct(topo.nodes);
    LookupFinds(topo.nodes, l);
    var peers := PeerNodes(topo.nodes, topo.masters, h);
    forall i | 0 <= i < |peers| ensures OnePeer(keys, topo.nodes[l], peers[i]).Ok? {
      var k := PeerIsNode(topo, h, i);
      OnePeerOk(lib, topo, keys, l, k);
    }
    PeersExist(keys, topo.nodes[l], peers);
    assert NodeKeyOk(lib, keys, h);
  }

  /** What stands in the file of node `l` for the peer in place `i`. */
  lemma PeerInFile(topo: ValidatedTopology, keys: ResolvedKeys, l: nat, i: nat) returns (k: nat)
    requires Ascending(Names(topo.nodes)) && l < |topo.nodes|
    requires Intended(topo, keys, topo.nodes[l].hostname).Ok?
    requires i < |Intended(topo, keys, topo.nodes[l].hostname).value.peers|
    ensures k < |topo.nodes| && i < |PeerNodes(topo.nodes, topo.masters, topo.nodes[l].hostname)|
    ensures topo.nodes[k] == PeerNodes(topo.nodes, topo.masters, topo.nodes[l].hostname)[i]
    ensures Adjacent(topo.nodes[l].hostname, topo.nodes[k].hostname, topo.masters)
    ensures OnePeer(keys, topo.nodes[l], topo.nodes[k])
         == Ok(Intended(topo, keys, topo.nodes[l].hostname).value.peers[i])
  {
    hide OnePeer, PeerNodes, Adjacent, Peers, Lookup;
    var h := topo.nodes[l].hostname;
    AscendingIsDistinct(topo.nodes);
    LookupFinds(topo.nodes, l);
    k := PeerIsNode(topo, h, i);
    PeersAt(keys, topo.nodes[l], PeerNodes(topo.nodes, topo.masters, h), i);
  }

  // -------------------------------------------------------------------
  // Allowed networks are apart
  // -------------------------------------------------------------------

  lemma AllowedNetIs(n: ValidatedNode, i: nat) returns (r: nat)
    requires i < |AllowedNets(n)|
    ensures i == 0 ==> AllowedNets(n)[i] == Host(n.tunnelAddress)
    ensures i > 0 ==> r < |n.extraAllowedIps| && AllowedNets(n)[i] == n.extraAllowedIps[r]
  {
    if i > 0 {
      SortNetsMultiset(n.extraAllowedIps);
      SameMembers(SortNets(n.extraAllowedIps), n.extraAllowedIps);
      assert SortNets(n.extraAllowedIps)[i - 1] in n.extraAllowedIps;
      r :| 0 <= r < |n.extraAllowedIps| && n.extraAllowedIps[r] == AllowedNets(n)[i];
    } else {
      r := 0;
    }
  }

  lemma AllowedNetAt(n: ValidatedNode, r: nat) returns (i: nat)
    requires r < |n.extraAllowedIps|
    ensures i < |AllowedNets(n)| && AllowedNets(n)[i] == n.extraAllowedIps[r]
  {
    SortNetsMultiset(n.extraAllowedIps);
    SameMembers(SortNets(n.extraAllowedIps), n.extraAllowedIps);
    assert n.extraAllowedIps[r] in SortNets(n.extraAllowedIps);
    var k :| 0 <= k < |SortNets(n.extraAllowedIps)| && SortNets(n.extraAllowedIps)[k] == n.extraAllowedIps[r];
    i := k + 1;
  }

  /** The networks listed for a peer cover exactly the addresses it owns. */
  lemma CoversWhatItOwns(p: ParsedPeer, n: ValidatedNode, a: Addr)
    requires p.allowedIps == AllowedNets(n)
    ensures CoversAddress(p, a) <==> Owns(n, a)
  {
    hide SortNets;
    HostRange(n.tunnelAddress);
    if CoversAddress(p, a) {
      var i :| 0 <= i < |p.allowedIps| && Contains(RangeOf(p.allowedIps[i]), a);
      var r := AllowedNetIs(n, i);
      hide RangeOf;
    }
    if Owns(n, a) {
      if a == n.tunnelAddress {
        assert Contains(RangeOf(p.allowedIps[0]), a);
      } else {
        var r :| 0 <= r < |n.extraAllowedIps| && Contains(RangeOf(n.extraAllowedIps[r]), a);
        var i := AllowedNetAt(n, r);
        assert Contains(RangeOf(p.allowedIps[i]), a);
      }
    }
  }

  /** Networks of two nodes of a valid fleet never overlap. */
  lemma NodesApart(p: ParsedPeer, q: ParsedPeer, n: ValidatedNode, m: ValidatedNode, masters: set<string>)
    requires p.allowedIps == AllowedNets(n) && q.allowedIps == AllowedNets(m)
    requires Compatible(n, m, masters) && Compatible(m, n, masters)
    ensures !PeersOverlap(p, q)
  {
    hide AllowedNets, RangeOf, Compatible;
    forall i, k | 0 <= i < |p.allowedIps| && 0 <= k < |q.allowedIps|
      ensures !Overlap(RangeOf(p.allowedIps[i]), RangeOf(q.allowedIps[k]))
    {
      var r := AllowedNetIs(n, i);
      var s := AllowedNetIs(m, k);
      NetsApart(n, m, masters, i == 0, r, k == 0, s);
    }
  }

  lemma NetsApart(n: ValidatedNode, m: ValidatedNode, masters: set<string>, ownI: bool, r: nat, ownK: bool, s: nat)
    requires Compatible(n, m, masters) && Compatible(m, n, masters)
    requires (ownI || r < |n.extraAllowedIps|) && (ownK || s < |m.extraAllowedIps|)
    ensures var a, b := if ownI then Host(n.tunnelAddress) else n.extraAllowedIps[r],
                        if ownK then Host(m.tunnelAddress) else m.extraAllowedIps[s];
            !Overlap(RangeOf(a), RangeOf(b))
  {
    HostRange(n.tunnelAddress);
    HostRange(m.tunnelAddress);
    hide RangeOf, Host;
    if ownI && !ownK {
      assert !Contains(RangeOf(m.extraAllowedIps[s]), n.tunnelAddress);
    } else if !ownI && ownK {
      assert !Contains(RangeOf(n.extraAllowedIps[r]), m.tunnelAddress);
    }
  }

  lemma AllowedNetsOk(lib: Library, n: ValidatedNode)
    requires NodeOk(lib, n)
    ensures |AllowedNets(n)| > 0 && NetsOk(AllowedNets(n))
  {
    HostRange(n.tunnelAddress);
    hide Network, AllowedNets, EndpointOk, Hostname.IsValid, Plain;
    forall i | 0 <= i < |AllowedNets(n)| ensures NetOk(AllowedNets(n)[i]) {
      var r := AllowedNetIs(n, i);
    }
    HasHost(n);
  }

  lemma HasHost(n: ValidatedNode)
    ensures |AllowedNets(n)| > 0
  {
  }

  // -------------------------------------------------------------------
  // Round trip
  // -------------------------------------------------------------------

  lemma OnePeerShape(keys: ResolvedKeys, local: ValidatedNode, peer: ValidatedNode)
    requires OnePeer(keys, local, peer).Ok?
    ensures peer.hostname in keys.nodeKeys && CanonicalPair(local.hostname, peer.hostname) in keys.edgePsks
    ensures OnePeer(keys, local, peer).value ==
            ParsedPeer(keys.nodeKeys[peer.hostname].1, keys.edgePsks[CanonicalPair(local.hostname, peer.hostname)],
                       AllowedNets(peer), peer.endpoint, LocalKeepalive(local))
  {
  }

  lemma PeerInFileOk(lib: Library, topo: ValidatedTopology, keys: ResolvedKeys, l: nat, i: nat)
    requires WellFormed(lib, topo) && KeysOk(lib, topo, keys) && l < |topo.nodes|
    requires Intended(topo, keys, topo.nodes[l].hostname).Ok?
    requires i < |Intended(topo, keys, topo.nodes[l].hostname).value.peers|
    ensures PeerOk(lib, Intended(topo, keys, topo.nodes[l].hostname).value.peers[i])
  {
    hide OnePeer, PeerNodes, Adjacent, Peers, Lookup, Intended, AllowedNets, FleetOk, Plain, EndpointOk, NetsOk,
      Hostname.IsValid, CanonicalPair;
    var k := PeerInFile(topo, keys, l, i);
    OnePeerShape(keys, topo.nodes[l], topo.nodes[k]);
    EdgeHasPsk(lib, topo, keys, l, k);
    assert NodeKeyOk(lib, keys, topo.nodes[k].hostname);
    KeyText(lib, keys.nodeKeys[topo.nodes[k].hostname].0);
    AllowedNetsOk(lib, topo.nodes[k]);
    assert NodeOk(lib, topo.nodes[k]);
  }

  lemma PeerApartFromLocal(lib: Library, topo: ValidatedTopology, keys: ResolvedKeys, l: nat, i: nat)
    requires WellFormed(lib, topo) && KeysOk(lib, topo, keys) && l < |topo.nodes|
    requires Intended(topo, keys, topo.nodes[l].hostname).Ok?
    requires i < |Intended(topo, keys, topo.nodes[l].hostname).value.peers|
    ensures var p := Intended(topo, keys, topo.nodes[l].hostname).value.peers[i];
            topo.nodes[l].hostname in keys.nodeKeys
            && p.publicKey != keys.nodeKeys[topo.nodes[l].hostname].1 && !CoversAddress(p, topo.nodes[l].tunnelAddress)
  {
    hide OnePeer, PeerNodes, Peers, Lookup, Intended, AllowedNets, FleetOk, NodeOk, CanonicalPair;
    var k := PeerInFile(topo, keys, l, i);
    OnePeerShape(keys, topo.nodes[l], topo.nodes[k]);
    var p := Intended(topo, keys, topo.nodes[l].hostname).value.peers[i];
    CoversWhatItOwns(p, topo.nodes[k], topo.nodes[l].tunnelAddress);
    assert NodeKeyOk(lib, keys, topo.nodes[l].hostname);
    if CoversAddress(p, topo.nodes[l].tunnelAddress) {
      OneOwner(topo, l, k, topo.nodes[l].tunnelAddress);
    }
  }

  lemma PeersInFileApart(lib: Library, topo: ValidatedTopology, keys: ResolvedKeys, l: nat, i: nat, j: nat)
    requires WellFormed(lib, topo) && KeysOk(lib, topo, keys) && l < |topo.nodes|
    requires Intended(topo, keys, topo.nodes[l].hostname).Ok?
    requires i < j < |Intended(topo, keys, topo.nodes[l].hostname).value.peers|
    ensures var peers := Intended(topo, keys, topo.nodes[l].hostname).value.peers; Separate(peers[i], peers[j])
  {
    hide OnePeer, PeerNodes, Adjacent, Peers, Lookup, Intended, AllowedNets, FleetOk, NodeOk, CanonicalPair, PeersOverlap,
      Compatible;
    var h := topo.nodes[l].hostname;
    var k := PeerInFile(topo, keys, l, i);
    var m := PeerInFile(topo, keys, l, j);
    PeerNodesAscending(topo.nodes, topo.masters, h);
    AscendingIsDistinct(PeerNodes(topo.nodes, topo.masters, h));
    assert k != m;
    OnePeerShape(keys, topo.nodes[l], topo.nodes[k]);
    OnePeerShape(keys, topo.nodes[l], topo.nodes[m]);
    FleetPair(topo.nodes, topo.masters, k, m);
    FleetPair(topo.nodes, topo.masters, m, k);
    var peers := Intended(topo, keys, h).value.peers;
    NodesApart(peers[i], peers[j], topo.nodes[k], topo.nodes[m], topo.masters);
  }

  lemma IntendedInterface(topo: ValidatedTopology, keys: ResolvedKeys, l: nat)
    requires Ascending(Names(topo.nodes)) && l < |topo.nodes| && Intended(topo, keys, topo.nodes[l].hostname).Ok?
    ensures topo.nodes[l].hostname in keys.nodeKeys
    ensures Intended(topo, keys, topo.nodes[l].hostname).value.interface
         == InterfaceEntry(topo.nodes[l], keys.nodeKeys[topo.nodes[l].hostname].0)
  {
    hide Peers, PeerNodes;
    AscendingIsDistinct(topo.nodes);
    LookupFinds(topo.nodes, l);
  }

  /** With valid keys the file of a node always says something that the strict reader accepts. */
  lemma IntendedIsPrintable(lib: Library, topo: ValidatedTopology, keys: ResolvedKeys, l: nat)
    requires WellFormed(lib, topo) && KeysOk(lib, topo, keys) && l < |topo.nodes|
    ensures Intended(topo, keys, topo.nodes[l].hostname).Ok?
    ensures Printable(lib, Intended(topo, keys, topo.nodes[l].hostname).value)
  {
    hide Peers, PeerNodes, Lookup, Intended, FleetOk, PeerOk, Separate, CoversAddress, EndpointOk, Plain,
      Hostname.IsValid;
    IntendedExists(lib, topo, keys, l);
    IntendedInterface(topo, keys, l);
    var c := Intended(topo, keys, topo.nodes[l].hostname).value;
    assert NodeKeyOk(lib, keys, topo.nodes[l].hostname);
    assert NodeOk(lib, topo.nodes[l]);
    hide KeysOk, WellFormed;
    forall i | 0 <= i < |c.peers|
      ensures PeerOk(lib, c.peers[i]) && c.peers[i].publicKey != lib.publicOf(c.interface.privateKey)
        && !CoversAddress(c.peers[i], c.interface.address)
    {
      PeerInFileOk(lib, topo, keys, l, i);
      PeerApartFromLocal(lib, topo, keys, l, i);
    }
    forall i, j | 0 <= i < j < |c.peers| ensures Separate(c.peers[i], c.peers[j]) {
      PeersInFileApart(lib, topo, keys, l, i, j);
    }
  }

  lemma PeerNamesValid(lib: Library, topo: ValidatedTopology, h: string)
    requires WellFormed(lib, topo)
    ensures forall i :: 0 <= i < |PeerNames(topo, h)| ==> Hostname.IsValid(PeerNames(topo, h)[i])
  {
    hide PeerNodes, FleetOk, Hostname.IsValid, EndpointOk, Plain, Adjacent;
    forall i | 0 <= i < |PeerNames(topo, h)| ensures Hostname.IsValid(PeerNames(topo, h)[i]) {
      var k := PeerIsNode(topo, h, i);
      assert NodeOk(lib, topo.nodes[k]);
    }
  }

  /** Rendering fails only by exceeding the size limit: self-validation always succeeds, and what is read
      back is the intended configuration, peers in host name order. */
  lemma RenderingSucceeds(lib: Library, topo: ValidatedTopology, keys: ResolvedKeys, l: nat)
    requires WellFormed(lib, topo) && KeysOk(lib, topo, keys) && l < |topo.nodes|
    ensures var h := topo.nodes[l].hostname;
            && Intended(topo, keys, h).Ok?
            && Rendered(lib, topo, keys, h) == (
                 if Utf8Len(FileText(topo, keys, h)) > MAX_CONFIG_BYTES
                 then Err(OversizedFile(h, Utf8Len(FileText(topo, keys, h)))) else Ok(FileText(topo, keys, h)))
            && (Rendered(lib, topo, keys, h).Ok? ==>
                  Parse(lib, FileText(topo, keys, h)) == Ok(Intended(topo, keys, h).value))
  {
    IntendedIsPrintable(lib, topo, keys, l);
    var h := topo.nodes[l].hostname;
    IntendedShape(topo, keys, h);
    PeerNamesValid(lib, topo, h);
    assert NodeOk(lib, topo.nodes[l]);
    hide KeysOk, WellFormed, NodeOk, Intended, PeerNames, Printable, Print, Parse, Utf8Len, Hostname.IsValid;
    var c := Intended(topo, keys, h).value;
    if Utf8Len(Print(h, PeerNames(topo, h), c)) <= MAX_CONFIG_BYTES {
      HostnameOk(lib, topo.nodes[l]);
      WgRoundTrip.PrintThenParse(lib, h, PeerNames(topo, h), c);
    }
  }

  lemma HostnameOk(lib: Library, n: ValidatedNode)
    ensures NodeOk(lib, n) ==> Hostname.IsValid(n.hostname)
  {
    hide EndpointOk, Plain;
  }

  // -------------------------------------------------------------------
  // Routing
  // -------------------------------------------------------------------

  /** The file sends traffic for `a` to the peer with this public key. */
  ghost predicate Selects(c: ParsedConfig, publicKey: string, a: Addr) {
    exists i :: 0 <= i < |c.peers| && c.peers[i].publicKey == publicKey && CoversAddress(c.peers[i], a)
  }

  lemma PeerKeyIs(lib: Library, topo: ValidatedTopology, keys: ResolvedKeys, k: nat, b: nat)
    requires KeysOk(lib, topo, keys) && k < |topo.nodes| && b < |topo.nodes|
    ensures topo.nodes[k].hostname in keys.nodeKeys && topo.nodes[b].hostname in keys.nodeKeys
    ensures keys.nodeKeys[topo.nodes[k].hostname].1 == keys.nodeKeys[topo.nodes[b].hostname].1 ==> k == b
  {
    assert NodeKeyOk(lib, keys, topo.nodes[k].hostname) && NodeKeyOk(lib, keys, topo.nodes[b].hostname);
  }

  /** In the file of node `l`, address `a` selects node `b` iff `b` owns it and shares an edge with `l`. */
  lemma RoutingFollowsOwnership(lib: Library, topo: ValidatedTopology, keys: ResolvedKeys, l: nat, b: nat, a: Addr)
    requires WellFormed(lib, topo) && KeysOk(lib, topo, keys) && l < |topo.nodes| && b < |topo.nodes|
    ensures Intended(topo, keys, topo.nodes[l].hostname).Ok? && topo.nodes[b].hostname in keys.nodeKeys
    ensures Selects(Intended(topo, keys, topo.nodes[l].hostname).value, keys.nodeKeys[topo.nodes[b].hostname].1, a)
       <==> Owns(topo.nodes[b], a) && Adjacent(topo.nodes[l].hostname, topo.nodes[b].hostname, topo.masters)
  {
    hide OnePeer, PeerNodes, Peers, Lookup, AllowedNets, FleetOk, NodeOk, CanonicalPair, Owns, CoversAddress,
      Adjacent, KeysOk;
    IntendedExists(lib, topo, keys, l);
    PeerKeyIs(lib, topo, keys, b, b);
    var h := topo.nodes[l].hostname;
    var c := Intended(topo, keys, h).value;
    var key := keys.nodeKeys[topo.nodes[b].hostname].1;
    hide Intended;
    if Selects(c, key, a) {
      var i :| 0 <= i < |c.peers| && c.peers[i].publicKey == key && CoversAddress(c.peers[i], a);
      var k := PeerInFile(topo, keys, l, i);
      OnePeerShape(keys, topo.nodes[l], topo.nodes[k]);
      PeerKeyIs(lib, topo, keys, k, b);
      CoversWhatItOwns(c.peers[i], topo.nodes[k], a);
    }
    if Owns(topo.nodes[b], a) && Adjacent(h, topo.nodes[b].hostname, topo.masters) {
      var i := NodeIsPeer(topo, h, b);
      IntendedShape(topo, keys, h);
      var k := PeerInFile(topo, keys, l, i);
      OnePeerShape(keys, topo.nodes[l], topo.nodes[k]);
      CoversWhatItOwns(c.peers[i], topo.nodes[b], a);
    }
  }

  /** Routing is a function: two selected peers are the same, and a spoke never selects a spoke. */
  lemma RoutingIsAFunction(lib: Library, topo: ValidatedTopology, keys: ResolvedKeys, l: nat, b: nat, d: nat, a: Addr)
    requires WellFormed(lib, topo) && KeysOk(lib, topo, keys)
    requires l < |topo.nodes| && b < |topo.nodes| && d < |topo.nodes|
    requires Intended(topo, keys, topo.nodes[l].hostname).Ok?
    requires topo.nodes[b].hostname in keys.nodeKeys && topo.nodes[d].hostname in keys.nodeKeys
    requires var c := Intended(topo, keys, topo.nodes[l].hostname).value;
             && Selects(c, keys.nodeKeys[topo.nodes[b].hostname].1, a)
             && Selects(c, keys.nodeKeys[topo.nodes[d].hostname].1, a)
    ensures b == d
    ensures topo.nodes[l].hostname in topo.masters || topo.nodes[b].hostname in topo.masters
  {
    RoutingFollowsOwnership(lib, topo, keys, l, b, a);
    RoutingFollowsOwnership(lib, topo, keys, l, d, a);
    hide Selects, Intended, KeysOk, FleetOk, Owns;
    OneOwner(topo, b, d, a);
  }

  // -------------------------------------------------------------------
  // Order of routes
  // -------------------------------------------------------------------

  lemma SameAllowed(n: ValidatedNode, m: ValidatedNode)
    requires SameButRoutes(n, m) && NoSelfOverlap(n)
    ensures AllowedNets(n) == AllowedNets(m) && LocalKeepalive(n) == LocalKeepalive(m)
    ensures n.hostname == m.hostname && n.endpoint == m.endpoint
    ensures forall k :: InterfaceEntry(n, k) == InterfaceEntry(m, k)
  {
    SortIsOrderIndependent(n, m);
  }

  ghost predicate OwnRoutesApart(nodes: seq<ValidatedNode>) {
    forall i :: 0 <= i < |nodes| ==> NoSelfOverlap(nodes[i])
  }

  lemma {:induction false} SamePeerNodes(a: seq<ValidatedNode>, b: seq<ValidatedNode>, masters: set<string>, h: string)
    requires SameNodesButRoutes(a, b) && OwnRoutesApart(a)
    ensures SameNodesButRoutes(PeerNodes(a, masters, h), PeerNodes(b, masters, h))
    ensures OwnRoutesApart(PeerNodes(a, masters, h))
    ensures Lookup(a, h).Some? <==> Lookup(b, h).Some?
    ensures Lookup(a, h).Some? ==> SameButRoutes(Lookup(a, h).value, Lookup(b, h).value) && NoSelfOverlap(Lookup(a, h).value)
  {
    hide NoSelfOverlap, SameButRoutes, Adjacent;
    if |a| > 0 {
      assert SameButRoutes(a[0], b[0]);
      RoutesOfSame(a[0], b[0]);
      SamePeerNodes(a[1..], b[1..], masters, h);
    }
  }

  lemma {:induction false} SamePeers(keys: ResolvedKeys, n: ValidatedNode, m: ValidatedNode, a: seq<ValidatedNode>,
                                     b: seq<ValidatedNode>)
    requires SameButRoutes(n, m) && NoSelfOverlap(n) && SameNodesButRoutes(a, b) && OwnRoutesApart(a)
    ensures Peers(keys, n, a) == Peers(keys, m, b)
    decreases |a|
  {
    if |a| > 0 {
      SameAllowed(n, m);
      SameAllowed(a[0], b[0]);
      hide NoSelfOverlap, SameButRoutes, AllowedNets, LocalKeepalive;
      SamePeers(keys, n, m, a[1..], b[1..]);
    }
  }

  /** Listing any node's extra routes in another order changes no byte of any file. */
  lemma RouteOrderChangesNoByte(lib: Library, a: ValidatedTopology, b: ValidatedTopology, keys: ResolvedKeys, h: string)
    requires SameNodesButRoutes(a.nodes, b.nodes) && a.masters == b.masters && FleetOk(a.nodes, a.masters)
    ensures Rendered(lib, a, keys, h) == Rendered(lib, b, keys, h)
  {
    hide NoCover, NoSelfOverlap, Compatible, SameButRoutes, PeerNodes, Lookup, Peers, Print, SelfChecked;
    assert OwnRoutesApart(a.nodes);
    SamePeerNodes(a.nodes, b.nodes, a.masters, h);
    var p, q := PeerNodes(a.nodes, a.masters, h), PeerNodes(b.nodes, b.masters, h);
    if Lookup(a.nodes, h).Some? {
      var n, m := Lookup(a.nodes, h).value, Lookup(b.nodes, h).value;
      SameAllowed(n, m);
      SamePeers(keys, n, m, p, q);
    }
    forall i | 0 <= i < |p| ensures Names(p)[i] == Names(q)[i] {
      RoutesOfSame(p[i], q[i]);
    }
    assert Names(p) == Names(q);
  }

  /** Listing nodes, masters or routes in another order changes neither the verdict nor any byte. `m` lists
      the routes of `a` as `b` does, and `b` lists the nodes and masters of `m` in another order. */
  lemma ListingOrderIsIrrelevant(lib: Library, a: TopologyConfig, m: TopologyConfig, b: TopologyConfig, keys: ResolvedKeys,
                                 h: string)
    requires SameConfigButRoutes(a, m)
    requires multiset(m.nodes) == multiset(b.nodes) && multiset(m.master) == multiset(b.master)
    ensures ValidConfig(lib, a) <==> ValidConfig(lib, b)
    ensures ValidConfig(lib, a) ==>
              && AllFieldsOk(lib, a.nodes) && AllFieldsOk(lib, b.nodes)
              && Rendered(lib, TopologyOf(lib, a), keys, h) == Rendered(lib, TopologyOf(lib, b), keys, h)
  {
    OrderOfRoutesIsIrrelevant(lib, a, m);
    OrderOfNodesIsIrrelevant(lib, m, b);
    hide SameConfigButRoutes, AllFieldsOk, TopologyOf, SameNodesButRoutes, FleetOk, Rendered, NodeOk;
    if ValidConfig(lib, a) {
      ValidatedIsWellFormed(lib, a);
      hide ValidConfig;
      RouteOrderChangesNoByte(lib, TopologyOf(lib, a), TopologyOf(lib, m), keys, h);
    }
  }

  // -------------------------------------------------------------------
  // Edges
  // -------------------------------------------------------------------

  /** Every edge of a valid topology joins two nodes that are found by name, one of them with an endpoint. */
  lemma EdgesHaveEndpoints(lib: Library, topo: ValidatedTopology, e: Edge)
    requires WellFormed(lib, topo) && e in Edges(topo)
    ensures Lookup(topo.nodes, e.0).Some? && Lookup(topo.nodes, e.1).Some?
    ensures Lookup(topo.nodes, e.0).value.endpoint.Some? || Lookup(topo.nodes, e.1).value.endpoint.Some?
  {
    hide FleetOk, NodeOk, EdgeSet, Lookup;
    EdgeEnds(HostSet(Names(topo.nodes)), topo.masters, e);
    var i :| 0 <= i < |topo.nodes| && Names(topo.nodes)[i] == e.0;
    var k :| 0 <= k < |topo.nodes| && Names(topo.nodes)[k] == e.1;
    AscendingIsDistinct(topo.nodes);
    LookupFinds(topo.nodes, i);
    LookupFinds(topo.nodes, k);
    FleetPair(topo.nodes, topo.masters, i, k);
  }
}
