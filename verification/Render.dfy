/** Rendering a node's configuration file from a topology and resolved keys. */
module Render {
  import opened Outcomes
  import opened Text
  import opened Ipv4
  import opened Lib
  import opened Order
  import opened Topology
  import opened Validation
  import opened WgQuick
  import opened WgPrint

  /** Key pairs (private, public) by host name, preshared keys by edge. */
  datatype ResolvedKeys = ResolvedKeys(nodeKeys: map<string, (string, string)>, edgePsks: map<Edge, string>)

  datatype RenderError =
    | UnknownHostname(hostname: string)
    | MissingNodeKey(hostname: string)
    | MissingEdgePsk(a: string, b: string)
    | OversizedFile(hostname: string, size: nat)
    | SelfValidationFailed(hostname: string, source: ParseError)

  const DEFAULT_KEEPALIVE: u16 := 25

  /** Zero switches keepalive off; unset means the default for nodes without an endpoint. */
  function LocalKeepalive(n: ValidatedNode): Option<u16> {
    match n.persistentKeepalive
    case Some(k) => if k == 0 then None else Some(k)
    case None => if n.endpoint.None? then Some(DEFAULT_KEEPALIVE) else None
  }

  // -------------------------------------------------------------------
  // Allowed networks
  // -------------------------------------------------------------------

  predicate NetBefore(a: Net, b: Net) {
    Network(a) < Network(b) || (Network(a) == Network(b) && a.prefix < b.prefix)
  }

  /** A stable insertion: equal keys keep their order. */
  function InsertNet(nets: seq<Net>, n: Net): seq<Net> {
    if |nets| == 0 || !NetBefore(nets[0], n) then [n] + nets else [nets[0]] + InsertNet(nets[1..], n)
  }

  /** Sorted by network address, then prefix length. */
  function SortNets(nets: seq<Net>): seq<Net> {
    if |nets| == 0 then [] else InsertNet(SortNets(nets[1..]), nets[0])
  }

  /** The tunnel address first, then the sorted extra routes. */
  function AllowedNets(n: ValidatedNode): seq<Net> {
    [Host(n.tunnelAddress)] + SortNets(n.extraAllowedIps)
  }

  lemma {:induction false} InsertNetMultiset(nets: seq<Net>, n: Net)
    ensures multiset(InsertNet(nets, n)) == multiset(nets) + multiset{n}
  {
    hide NetBefore;
    if |nets| > 0 && NetBefore(nets[0], n) {
      InsertNetMultiset(nets[1..], n);
      assert nets == [nets[0]] + nets[1..];
    }
  }

  lemma {:induction false} SortNetsMultiset(nets: seq<Net>)
    ensures multiset(SortNets(nets)) == multiset(nets)
  {
    if |nets| > 0 {
      SortNetsMultiset(nets[1..]);
      InsertNetMultiset(SortNets(nets[1..]), nets[0]);
      assert nets == [nets[0]] + nets[1..];
    }
  }

  ghost predicate Rising(nets: seq<Net>) {
    forall i, k :: 0 <= i < k < |nets| ==> NetBefore(nets[i], nets[k])
  }

  ghost predicate DistinctKeys(nets: seq<Net>) {
    Pairwise(nets, (a: Net, b: Net) => NetBefore(a, b) || NetBefore(b, a))
  }

  lemma {:induction false} InsertNetRising(nets: seq<Net>, n: Net)
    requires Rising(nets) && forall i :: 0 <= i < |nets| ==> NetBefore(nets[i], n) || NetBefore(n, nets[i])
    ensures Rising(InsertNet(nets, n))
  {
    var r := InsertNet(nets, n);
    if |nets| == 0 || !NetBefore(nets[0], n) {
      forall i, k | 0 <= i < k < |r| ensures NetBefore(r[i], r[k]) {
        if i == 0 && k > 1 {
          assert NetBefore(nets[0], nets[k - 1]);
        }
      }
    } else {
      var t := InsertNet(nets[1..], n);
      InsertNetRising(nets[1..], n);
      InsertNetMultiset(nets[1..], n);
      forall i, k | 0 <= i < k < |r| ensures NetBefore(r[i], r[k]) {
        if i == 0 {
          assert t[k - 1] in multiset(t);
        } else {
          assert NetBefore(t[i - 1], t[k - 1]);
        }
      }
    }
  }

  lemma {:induction false} SortNetsRising(nets: seq<Net>)
    requires DistinctKeys(nets)
    ensures Rising(SortNets(nets))
  {
    hide NetBefore;
    if |nets| > 0 {
      var rest, apart := nets[1..], (a: Net, b: Net) => NetBefore(a, b) || NetBefore(b, a);
      forall i, k | 0 <= i < |rest| && 0 <= k < |rest| && i != k ensures apart(rest[i], rest[k]) {
        assert apart(nets[i + 1], nets[k + 1]);
      }
      SortNetsRising(rest);
      SortNetsMultiset(rest);
      var t := SortNets(rest);
      forall i | 0 <= i < |t| ensures NetBefore(t[i], nets[0]) || NetBefore(nets[0], t[i]) {
        assert t[i] in multiset(t);
        assert t[i] in rest;
        var k :| 0 <= k < |rest| && rest[k] == t[i];
        assert apart(nets[k + 1], nets[0]);
      }
      InsertNetRising(t, nets[0]);
    }
  }

  lemma {:induction false} RisingUnique(s: seq<Net>, t: seq<Net>)
    requires Rising(s) && Rising(t) && multiset(s) == multiset(t)
    ensures s == t
  {
    SameMembers(s, t);
    if |s| > 0 {
      assert s[0] in t && t[0] in s by { assert s[0] in s && t[0] in t; }
      assert s[0] == t[0] by {
        var i :| 0 <= i < |t| && t[i] == s[0];
        var k :| 0 <= k < |s| && s[k] == t[0];
        if i > 0 && k > 0 {
          assert NetBefore(t[0], t[i]) && NetBefore(s[0], s[k]);
        }
      }
      RestPermuted(s, t, 0);
      assert RemoveAt(s, 0) == s[1..] && RemoveAt(t, 0) == t[1..];
      RisingUnique(s[1..], t[1..]);
      assert s == [s[0]] + s[1..] && t == [t[0]] + t[1..];
    }
  }

  lemma ApartHaveDistinctKeys(a: Net, b: Net)
    requires !Overlap(RangeOf(a), RangeOf(b))
    ensures NetBefore(a, b) || NetBefore(b, a)
  {
    RangeNonEmpty(a);
    RangeNonEmpty(b);
    hide Network;
  }

  /** The sort is canonical: routes that do not overlap sort the same way from any order. */
  lemma SortIsOrderIndependent(n: ValidatedNode, m: ValidatedNode)
    requires multiset(n.extraAllowedIps) == multiset(m.extraAllowedIps) && NoSelfOverlap(n)
    ensures SortNets(n.extraAllowedIps) == SortNets(m.extraAllowedIps)
  {
    hide RangeOf, NetBefore, Overlap;
    var a, b := n.extraAllowedIps, m.extraAllowedIps;
    var apart := (x: Net, y: Net) => NetBefore(x, y) || NetBefore(y, x);
    forall i, k | 0 <= i < |a| && 0 <= k < |a| && i != k ensures apart(a[i], a[k]) {
      if i < k {
        ApartHaveDistinctKeys(a[i], a[k]);
      } else {
        ApartHaveDistinctKeys(a[k], a[i]);
      }
    }
    PairwisePermuted(a, b, apart);
    SortNetsRising(a);
    SortNetsRising(b);
    SortNetsMultiset(a);
    SortNetsMultiset(b);
    RisingUnique(SortNets(a), SortNets(b));
  }

  // -------------------------------------------------------------------
  // The peers of a node
  // -------------------------------------------------------------------

  function Lookup(nodes: seq<ValidatedNode>, h: string): Option<ValidatedNode> {
    if |nodes| == 0 then None else if nodes[0].hostname == h then Some(nodes[0]) else Lookup(nodes[1..], h)
  }

  /** The nodes that share an edge with `h`, in order. */
  function PeerNodes(nodes: seq<ValidatedNode>, masters: set<string>, h: string): seq<ValidatedNode> {
    if |nodes| == 0 then []
    else
      (if Adjacent(h, nodes[0].hostname, masters) then [nodes[0]] else [])
      + PeerNodes(nodes[1..], masters, h)
  }

  lemma {:induction false} LookupFinds(nodes: seq<ValidatedNode>, i: nat)
    requires i < |nodes| && DistinctNames(nodes)
    ensures Lookup(nodes, nodes[i].hostname) == Some(nodes[i])
  {
    if i > 0 {
      assert nodes[0].hostname != nodes[i].hostname;
      LookupFinds(nodes[1..], i - 1);
    }
  }

  lemma {:induction false} LookupFails(nodes: seq<ValidatedNode>, h: string)
    ensures Lookup(nodes, h).None? <==> h !in Names(nodes)
    ensures Lookup(nodes, h).Some? ==> Lookup(nodes, h).value in nodes && Lookup(nodes, h).value.hostname == h
  {
    if |nodes| > 0 {
      LookupFails(nodes[1..], h);
      assert Names(nodes) == [nodes[0].hostname] + Names(nodes[1..]);
    }
  }

  lemma {:induction false} PeerNodesMembers(nodes: seq<ValidatedNode>, masters: set<string>, h: string)
    ensures forall n :: n in PeerNodes(nodes, masters, h) <==> n in nodes && Adjacent(h, n.hostname, masters)
  {
    if |nodes| > 0 {
      PeerNodesMembers(nodes[1..], masters, h);
      assert nodes == [nodes[0]] + nodes[1..];
    }
  }

  lemma {:induction false} PeerNodesAscending(nodes: seq<ValidatedNode>, masters: set<string>, h: string)
    requires Ascending(Names(nodes))
    ensures Ascending(Names(PeerNodes(nodes, masters, h)))
  {
    hide Adjacent, Less;
    if |nodes| > 0 {
      var rest, tail := nodes[1..], PeerNodes(nodes[1..], masters, h);
      assert forall i :: 0 <= i < |rest| ==> Names(rest)[i] == Names(nodes)[i + 1];
      PeerNodesAscending(rest, masters, h);
      PeerNodesMembers(rest, masters, h);
      forall i | 0 <= i < |tail| ensures Less(nodes[0].hostname, tail[i].hostname) {
        assert tail[i] in rest;
        var k :| 0 <= k < |rest| && rest[k] == tail[i];
        assert Less(Names(nodes)[0], Names(nodes)[k + 1]);
      }
      AscendingFront(nodes[0], tail);
    }
  }

  lemma AscendingIsDistinct(nodes: seq<ValidatedNode>)
    requires Ascending(Names(nodes))
    ensures DistinctNames(nodes)
  {
    forall i, j | 0 <= i < j < |nodes| ensures nodes[i].hostname != nodes[j].hostname {
      LessIrreflexive(nodes[i].hostname);
      assert Less(Names(nodes)[i], Names(nodes)[j]);
    }
  }

  // -------------------------------------------------------------------
  // The typed configuration of a node
  // -------------------------------------------------------------------

  function InterfaceEntry(n: ValidatedNode, privateKey: string): ParsedInterface {
    ParsedInterface(privateKey, n.tunnelAddress, n.listenPort, n.dns, n.mtu)
  }

  function PeerEntry(local: ValidatedNode, peer: ValidatedNode, publicKey: string, psk: string): ParsedPeer {
    ParsedPeer(publicKey, psk, AllowedNets(peer), peer.endpoint, LocalKeepalive(local))
  }

  function OnePeer(keys: ResolvedKeys, local: ValidatedNode, peer: ValidatedNode): Result<ParsedPeer, RenderError> {
    var pair := CanonicalPair(local.hostname, peer.hostname);
    if peer.hostname !in keys.nodeKeys then Err(MissingNodeKey(peer.hostname))
    else if pair !in keys.edgePsks then Err(MissingEdgePsk(pair.0, pair.1))
    else Ok(PeerEntry(local, peer, keys.nodeKeys[peer.hostname].1, keys.edgePsks[pair]))
  }

  function Peers(keys: ResolvedKeys, local: ValidatedNode, nodes: seq<ValidatedNode>)
    : (r: Result<seq<ParsedPeer>, RenderError>)
    ensures r.Ok? ==> |r.value| == |nodes|
  {
    if |nodes| == 0 then Ok([])
    else
      match OnePeer(keys, local, nodes[0])
      case Err(e) => Err(e)
      case Ok(first) =>
        match Peers(keys, local, nodes[1..])
        case Err(e) => Err(e)
        case Ok(rest) => Ok([first] + rest)
  }

  /** The configuration that the file of `h` should say. */
  function Intended(topo: ValidatedTopology, keys: ResolvedKeys, h: string): Result<ParsedConfig, RenderError> {
    match Lookup(topo.nodes, h)
    case None => Err(UnknownHostname(h))
    case Some(node) =>
      if h !in keys.nodeKeys then Err(MissingNodeKey(h))
      else
        match Peers(keys, node, PeerNodes(topo.nodes, topo.masters, h))
        case Err(e) => Err(e)
        case Ok(peers) => Ok(ParsedConfig(InterfaceEntry(node, keys.nodeKeys[h].0), peers))
  }

  function PeerNames(topo: ValidatedTopology, h: string): seq<string> {
    Names(PeerNodes(topo.nodes, topo.masters, h))
  }

  lemma IntendedShape(topo: ValidatedTopology, keys: ResolvedKeys, h: string)
    requires Intended(topo, keys, h).Ok?
    ensures |PeerNames(topo, h)| == |Intended(topo, keys, h).value.peers|
  {
    hide PeerNodes, Lookup;
  }

  /** The text of the file of `h`. */
  function FileText(topo: ValidatedTopology, keys: ResolvedKeys, h: string): string
    requires Intended(topo, keys, h).Ok?
  {
    IntendedShape(topo, keys, h);
    Print(h, PeerNames(topo, h), Intended(topo, keys, h).value)
  }

  /** The size limit, then self-validation. */
  function SelfChecked(lib: Library, h: string, text: string): Result<string, RenderError> {
    if Utf8Len(text) > MAX_CONFIG_BYTES then Err(OversizedFile(h, Utf8Len(text)))
    else
      match Parse(lib, text)
      case Err(e) => Err(SelfValidationFailed(h, e))
      case Ok(_) => Ok(text)
  }

  function Rendered(lib: Library, topo: ValidatedTopology, keys: ResolvedKeys, h: string): Result<string, RenderError> {
    match Intended(topo, keys, h)
    case Err(e) => Err(e)
    case Ok(_) => SelfChecked(lib, h, FileText(topo, keys, h))
  }
}
