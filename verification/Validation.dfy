/** Topology validation as it runs, and what it promises. */
module Validation {
  import opened Outcomes
  import opened Lib
  import opened Order
  import opened Topology
  import Hostname

  // -------------------------------------------------------------------
  // Sorting by host name
  // -------------------------------------------------------------------

  function InsertByName(nodes: seq<ValidatedNode>, n: ValidatedNode): seq<ValidatedNode> {
    if |nodes| == 0 || Less(n.hostname, nodes[0].hostname) then [n] + nodes
    else [nodes[0]] + InsertByName(nodes[1..], n)
  }

  function SortByName(nodes: seq<ValidatedNode>): seq<ValidatedNode> {
    if |nodes| == 0 then [] else InsertByName(SortByName(nodes[1..]), nodes[0])
  }

  function Names(nodes: seq<ValidatedNode>): (names: seq<string>)
    ensures |names| == |nodes| && forall i :: 0 <= i < |nodes| ==> names[i] == nodes[i].hostname
  {
    seq(|nodes|, i requires 0 <= i < |nodes| => nodes[i].hostname)
  }

  ghost predicate DistinctNames(nodes: seq<ValidatedNode>) {
    forall i, j :: 0 <= i < j < |nodes| ==> nodes[i].hostname != nodes[j].hostname
  }

  lemma {:induction false} InsertMultiset(nodes: seq<ValidatedNode>, n: ValidatedNode)
    ensures multiset(InsertByName(nodes, n)) == multiset(nodes) + multiset{n}
  {
    if |nodes| == 0 || Less(n.hostname, nodes[0].hostname) {
    } else {
      InsertMultiset(nodes[1..], n);
      assert nodes == [nodes[0]] + nodes[1..];
    }
  }

  lemma {:induction false} SortMultiset(nodes: seq<ValidatedNode>)
    ensures multiset(SortByName(nodes)) == multiset(nodes)
  {
    if |nodes| > 0 {
      SortMultiset(nodes[1..]);
      InsertMultiset(SortByName(nodes[1..]), nodes[0]);
      assert nodes == [nodes[0]] + nodes[1..];
    }
  }

  /** Putting a node in front of nodes with greater names. */
  lemma AscendingFront(n: ValidatedNode, nodes: seq<ValidatedNode>)
    requires Ascending(Names(nodes)) && forall i :: 0 <= i < |nodes| ==> Less(n.hostname, nodes[i].hostname)
    ensures Ascending(Names([n] + nodes))
  {
    hide Less;
    var r := [n] + nodes;
    forall i, j | 0 <= i < j < |r| ensures Less(Names(r)[i], Names(r)[j]) {
      assert r[j] == nodes[j - 1];
      if i > 0 {
        assert Less(Names(nodes)[i - 1], Names(nodes)[j - 1]);
      }
    }
  }

  lemma {:induction false} InsertAscending(nodes: seq<ValidatedNode>, n: ValidatedNode)
    requires Ascending(Names(nodes))
    requires forall i :: 0 <= i < |nodes| ==> nodes[i].hostname != n.hostname
    ensures Ascending(Names(InsertByName(nodes, n)))
  {
    hide Less;
    if |nodes| == 0 {
    } else if Less(n.hostname, nodes[0].hostname) {
      forall i | 0 <= i < |nodes| ensures Less(n.hostname, nodes[i].hostname) {
        if i > 0 {
          assert Less(Names(nodes)[0], Names(nodes)[i]);
          LessTransitive(n.hostname, nodes[0].hostname, nodes[i].hostname);
        }
      }
      AscendingFront(n, nodes);
    } else {
      var rest := nodes[1..];
      assert forall i :: 0 <= i < |rest| ==> Names(rest)[i] == Names(nodes)[i + 1];
      InsertAscending(rest, n);
      InsertMultiset(rest, n);
      LessTotal(n.hostname, nodes[0].hostname);
      var t := InsertByName(rest, n);
      forall i | 0 <= i < |t| ensures Less(nodes[0].hostname, t[i].hostname) {
        assert t[i] in multiset(t);
        if t[i] != n {
          assert t[i] in rest;
          var k :| 0 <= k < |rest| && rest[k] == t[i];
          assert Less(Names(nodes)[0], Names(nodes)[k + 1]);
        }
      }
      AscendingFront(nodes[0], t);
    }
  }

  lemma {:induction false} SortAscending(nodes: seq<ValidatedNode>)
    requires DistinctNames(nodes)
    ensures Ascending(Names(SortByName(nodes)))
  {
    if |nodes| > 0 {
      var rest := nodes[1..];
      assert DistinctNames(rest);
      SortAscending(rest);
      SortMultiset(rest);
      var t := SortByName(rest);
      forall i | 0 <= i < |t| ensures t[i].hostname != nodes[0].hostname {
        assert t[i] in multiset(t);
        assert t[i] in rest;
        var k :| 0 <= k < |rest| && rest[k] == t[i];
        assert nodes[k + 1] == rest[k];
      }
      InsertAscending(t, nodes[0]);
    }
  }

  /** Fleets with the same nodes sort to the same sequence. */
  lemma SortIsCanonical(a: seq<ValidatedNode>, b: seq<ValidatedNode>)
    requires multiset(a) == multiset(b) && DistinctNames(a) && DistinctNames(b)
    ensures SortByName(a) == SortByName(b)
  {
    hide Less, SortByName;
    SortMultiset(a);
    SortMultiset(b);
    SortAscending(a);
    SortAscending(b);
    var s, t := SortByName(a), SortByName(b);
    SameMembers(s, t);
    assert forall x :: x in Names(s) ==> exists i :: 0 <= i < |s| && s[i].hostname == x;
    NamesFollow(s, t);
    NamesFollow(t, s);
    AscendingUnique(Names(s), Names(t));
    forall i | 0 <= i < |s| ensures s[i] == t[i] {
      assert s[i] in t;
      var k :| 0 <= k < |t| && t[k] == s[i];
      assert Names(t)[k] == Names(t)[i];
      if k != i {
        LessIrreflexive(Names(t)[i]);
      }
    }
  }

  lemma NamesFollow(s: seq<ValidatedNode>, t: seq<ValidatedNode>)
    requires forall x :: x in s ==> x in t
    ensures forall h :: h in Names(s) ==> h in Names(t)
  {
    forall h | h in Names(s) ensures h in Names(t) {
      var i :| 0 <= i < |s| && Names(s)[i] == h;
      assert s[i] in t;
      var k :| 0 <= k < |t| && t[k] == s[i];
      assert Names(t)[k] == h;
    }
  }

  // -------------------------------------------------------------------
  // What each rejection means
  // -------------------------------------------------------------------

  /** A defect of one node's own fields. */
  ghost predicate FieldDefect(lib: Library, n: NodeConfig, e: ValidationError) {
    match e
    case InvalidTunnelAddress(h) => n.hostname == h && !TunnelOk(n.wg.tunnelAddress)
    case InvalidListenPort(h) => n.hostname == h && n.wg.listenPort == 0
    case InvalidEndpoint(h) => n.hostname == h && n.wg.endpoint.Some? && !EndpointOk(lib, n.wg.endpoint.value)
    case InvalidDns(h) => n.hostname == h && n.wg.dns.Some? && lib.parseIp(n.wg.dns.value).None?
    case InvalidMtu(h) => n.hostname == h && n.wg.mtu.Some? && n.wg.mtu.value < MIN_MTU
    case NonCanonicalRoute(h, r) => n.hostname == h && r in n.wg.extraAllowedIps && ParseCanonicalNet(r).None?
    case DefaultRouteRejected(h) =>
      n.hostname == h && exists k :: 0 <= k < |n.wg.extraAllowedIps| && DefaultRoute(n.wg.extraAllowedIps[k])
    case _ => false
  }

  predicate DefaultRoute(r: string) {
    ParseCanonicalNet(r).Some? && ParseCanonicalNet(r).value.prefix == 0
  }

  /** A defect of the nodes at two positions (which may coincide). */
  ghost predicate PairDefect(nodes: seq<ValidatedNode>, masters: set<string>, i: nat, j: nat, e: ValidationError)
    requires i < |nodes| && j < |nodes|
  {
    match e
    case RouteCoversTunnelAddress(a, b) =>
      nodes[i].hostname == a && nodes[j].hostname == b && !NoCover(nodes[i], nodes[j])
    case OverlappingRoutes(a, b) =>
      && nodes[i].hostname == a && nodes[j].hostname == b
      && if i == j then !NoSelfOverlap(nodes[i]) else !NoOverlap(nodes[i], nodes[j])
    case EdgeMissingEndpoint(a, b) =>
      && i != j && nodes[i].hostname == a && nodes[j].hostname == b
      && Adjacent(a, b, masters) && nodes[i].endpoint.None? && nodes[j].endpoint.None?
    case _ => false
  }

  ghost predicate SharedTunnel(config: TopologyConfig, i: nat, j: nat, e: ValidationError)
    requires i < |config.nodes| && j < |config.nodes|
  {
    var n, m := config.nodes[i], config.nodes[j];
    && e == DuplicateTunnelAddress(n.hostname, m.hostname) && i != j
    && TunnelOk(n.wg.tunnelAddress) && TunnelOk(m.wg.tunnelAddress)
    && ParseCanonicalNet(n.wg.tunnelAddress).value.addr == ParseCanonicalNet(m.wg.tunnelAddress).value.addr
  }

  /** The configuration really has the defect that the error names. */
  ghost predicate Blames(lib: Library, config: TopologyConfig, e: ValidationError) {
    match e
    case EmptyNodes => |config.nodes| == 0
    case TooManyNodes(n) => n == |config.nodes| > MAX_NODES
    case InvalidHostname(h) => h in HostNames(config) && !Hostname.IsValid(h)
    case DuplicateHostname(h) =>
      exists i, j :: 0 <= i < j < |config.nodes| && config.nodes[i].hostname == h == config.nodes[j].hostname
    case UnknownMaster(m) => m in config.master && m !in HostNames(config)
    case DuplicateMaster(m) => exists i, j :: 0 <= i < j < |config.master| && config.master[i] == m == config.master[j]
    case _ =>
      || (exists i :: 0 <= i < |config.nodes| && FieldDefect(lib, config.nodes[i], e))
      || (exists i, j :: 0 <= i < |config.nodes| && 0 <= j < |config.nodes| && SharedTunnel(config, i, j, e))
      || (AllFieldsOk(lib, config.nodes)
          && exists i, j :: 0 <= i < |config.nodes| && 0 <= j < |config.nodes|
               && PairDefect(NodesOf(lib, config.nodes), Members(config.master), i, j, e))
  }

  ghost predicate AllFieldsOk(lib: Library, nodes: seq<NodeConfig>) {
    forall i :: 0 <= i < |nodes| ==> FieldsOk(lib, nodes[i])
  }

  lemma TunnelOfNode(lib: Library, n: NodeConfig)
    requires FieldsOk(lib, n)
    ensures TunnelOk(n.wg.tunnelAddress)
    ensures NodeOf(lib, n).tunnelAddress == ParseCanonicalNet(n.wg.tunnelAddress).value.addr
    ensures NodeOf(lib, n).hostname == n.hostname
  {
  }

  lemma FieldDefectFails(lib: Library, n: NodeConfig, e: ValidationError)
    requires FieldDefect(lib, n, e)
    ensures !FieldsOk(lib, n)
  {
    hide TunnelOk, EndpointOk, ParseCanonicalNet;
  }

  lemma PairDefectFails(nodes: seq<ValidatedNode>, masters: set<string>, i: nat, j: nat, e: ValidationError)
    requires i < |nodes| && j < |nodes| && PairDefect(nodes, masters, i, j, e)
    ensures !FleetOk(nodes, masters)
  {
    FleetPair(nodes, masters, i, j);
    hide NoCover, NoOverlap, NoSelfOverlap;
  }

  lemma FleetPair(nodes: seq<ValidatedNode>, masters: set<string>, i: nat, j: nat)
    requires i < |nodes| && j < |nodes|
    ensures FleetOk(nodes, masters) && i != j ==> Compatible(nodes[i], nodes[j], masters)
    ensures FleetOk(nodes, masters) ==> NoCover(nodes[i], nodes[i]) && NoSelfOverlap(nodes[i])
  {
    hide NoCover, NoOverlap, NoSelfOverlap, Compatible;
    assert FleetOk(nodes, masters) && i != j ==>
             ((n: ValidatedNode, m: ValidatedNode) => Compatible(n, m, masters))(nodes[i], nodes[j]);
  }

  lemma ValidParts(lib: Library, config: TopologyConfig)
    requires ValidConfig(lib, config)
    ensures AllFieldsOk(lib, config.nodes) && FleetOk(NodesOf(lib, config.nodes), Members(config.master))
    ensures forall i :: 0 <= i < |config.nodes| ==>
              NodesOf(lib, config.nodes)[i].hostname == config.nodes[i].hostname
  {
    hide FleetOk, Hostname.IsValid, TunnelOk, EndpointOk, RouteOk, ParseCanonicalNet;
  }

  lemma SharedNameFails(lib: Library, config: TopologyConfig, i: nat, j: nat)
    requires i < j < |config.nodes| && config.nodes[i].hostname == config.nodes[j].hostname
    ensures !ValidConfig(lib, config)
  {
    hide ValidConfig, FleetOk, NodesOf;
    if ValidConfig(lib, config) {
      ValidParts(lib, config);
      FleetPair(NodesOf(lib, config.nodes), Members(config.master), i, j);
    }
  }

  lemma SharedTunnelFails(lib: Library, config: TopologyConfig, i: nat, j: nat, e: ValidationError)
    requires i < |config.nodes| && j < |config.nodes| && SharedTunnel(config, i, j, e)
    ensures !ValidConfig(lib, config)
  {
    hide ValidConfig, FleetOk, FieldsOk, NodeOf;
    if ValidConfig(lib, config) {
      ValidParts(lib, config);
      TunnelOfNode(lib, config.nodes[i]);
      TunnelOfNode(lib, config.nodes[j]);
      FleetPair(NodesOf(lib, config.nodes), Members(config.master), i, j);
    }
  }

  lemma DefectFails(lib: Library, config: TopologyConfig, e: ValidationError)
    requires Blames(lib, config, e)
    requires !e.EmptyNodes? && !e.TooManyNodes? && !e.InvalidHostname? && !e.DuplicateHostname?
      && !e.UnknownMaster? && !e.DuplicateMaster?
    ensures !ValidConfig(lib, config)
  {
    hide FleetOk, FieldsOk, NodesOf, PairDefect, FieldDefect, SharedTunnel, ValidConfig;
    if i :| 0 <= i < |config.nodes| && FieldDefect(lib, config.nodes[i], e) {
      FieldDefectFails(lib, config.nodes[i], e);
      if ValidConfig(lib, config) {
        ValidParts(lib, config);
      }
    } else if i, j :| 0 <= i < |config.nodes| && 0 <= j < |config.nodes| && SharedTunnel(config, i, j, e) {
      SharedTunnelFails(lib, config, i, j, e);
    } else {
      var i, j :| 0 <= i < |config.nodes| && 0 <= j < |config.nodes|
        && PairDefect(NodesOf(lib, config.nodes), Members(config.master), i, j, e);
      PairDefectFails(NodesOf(lib, config.nodes), Members(config.master), i, j, e);
      if ValidConfig(lib, config) {
        ValidParts(lib, config);
      }
    }
  }

  lemma ListDefectFails(lib: Library, config: TopologyConfig, e: ValidationError)
    requires Blames(lib, config, e)
    requires e.EmptyNodes? || e.TooManyNodes? || e.InvalidHostname? || e.UnknownMaster?
    ensures !ValidConfig(lib, config)
  {
    hide FleetOk, FieldsOk, NodesOf, Hostname.IsValid;
  }

  lemma MasterRepeatFails(lib: Library, config: TopologyConfig, i: nat, j: nat)
    requires i < j < |config.master| && config.master[i] == config.master[j]
    ensures !ValidConfig(lib, config)
  {
    hide FleetOk, FieldsOk, NodesOf, Hostname.IsValid;
  }

  /** A blamed configuration is not valid. */
  lemma BlamedIsInvalid(lib: Library, config: TopologyConfig, e: ValidationError)
    requires Blames(lib, config, e)
    ensures !ValidConfig(lib, config)
  {
    if e.EmptyNodes? || e.TooManyNodes? || e.InvalidHostname? || e.UnknownMaster? {
      ListDefectFails(lib, config, e);
    } else if e.DuplicateHostname? {
      var i, j :| 0 <= i < j < |config.nodes| && config.nodes[i].hostname == e.hostname == config.nodes[j].hostname;
      SharedNameFails(lib, config, i, j);
    } else if e.DuplicateMaster? {
      var i, j :| 0 <= i < j < |config.master| && config.master[i] == e.hostname == config.master[j];
      MasterRepeatFails(lib, config, i, j);
    } else {
      DefectFails(lib, config, e);
    }
  }
}
