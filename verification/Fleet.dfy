/** What a validated topology guarantees: well-formed nodes, one owner per address, and independence of
    the order in which nodes, masters and routes are listed. */
module Fleet {
  import opened Outcomes
  import opened Text
  import opened Ipv4
  import opened Lib
  import opened Order
  import opened Topology
  import opened Validation
  import opened Validator
  import Hostname

  ghost predicate NodeOk(lib: Library, n: ValidatedNode) {
    && Hostname.IsValid(n.hostname)
    && n.listenPort != 0
    && (n.endpoint.Some? ==> EndpointOk(lib, n.endpoint.value))
    && (n.dns.Some? ==> Plain(n.dns.value) && lib.parseIp(n.dns.value) == n.dns)
    && (n.mtu.Some? ==> n.mtu.value >= MIN_MTU)
    && forall i :: 0 <= i < |n.extraAllowedIps| ==>
         Ipv4.IsCanonical(n.extraAllowedIps[i]) && n.extraAllowedIps[i].prefix != 0
  }

  /** A topology that validation may produce. */
  ghost predicate WellFormed(lib: Library, topo: ValidatedTopology) {
    && Ascending(Names(topo.nodes))
    && (forall i :: 0 <= i < |topo.nodes| ==> NodeOk(lib, topo.nodes[i]))
    && FleetOk(topo.nodes, topo.masters)
  }

  lemma RouteIsCanonical(r: string)
    requires RouteOk(r)
    ensures Ipv4.IsCanonical(RouteOf(r)) && RouteOf(r).prefix != 0
  {
    hide ParseNet;
  }

  lemma NodeOfIsOk(lib: Library, n: NodeConfig)
    requires FieldsOk(lib, n) && Hostname.IsValid(n.hostname)
    ensures NodeOk(lib, NodeOf(lib, n))
  {
    hide ParseNet, EndpointOk, Hostname.IsValid, RouteOk, RouteOf, TunnelOk;
    forall i | 0 <= i < |n.wg.extraAllowedIps|
      ensures Ipv4.IsCanonical(Routes(n.wg.extraAllowedIps)[i]) && Routes(n.wg.extraAllowedIps)[i].prefix != 0
    {
      RouteIsCanonical(n.wg.extraAllowedIps[i]);
    }
    assert Lawful(lib);
  }

  /** Properties of a fleet do not depend on the order of its nodes. */
  lemma FleetPermuted(a: seq<ValidatedNode>, b: seq<ValidatedNode>, masters: set<string>)
    requires multiset(a) == multiset(b) && FleetOk(a, masters)
    ensures FleetOk(b, masters)
  {
    hide Compatible, NoCover, NoSelfOverlap;
    PairwisePermuted(a, b, (n: ValidatedNode, m: ValidatedNode) => Compatible(n, m, masters));
    SameMembers(a, b);
    forall i | 0 <= i < |b| ensures NoCover(b[i], b[i]) && NoSelfOverlap(b[i]) {
      assert b[i] in a;
      var k :| 0 <= k < |a| && a[k] == b[i];
    }
  }

  lemma FleetNamesDistinct(nodes: seq<ValidatedNode>, masters: set<string>)
    requires FleetOk(nodes, masters)
    ensures DistinctNames(nodes)
  {
    hide FleetOk;
    forall i, j | 0 <= i < j < |nodes| ensures nodes[i].hostname != nodes[j].hostname {
      FleetPair(nodes, masters, i, j);
    }
  }

  /** Every topology that validation returns is well formed. */
  lemma ValidatedIsWellFormed(lib: Library, config: TopologyConfig)
    requires ValidConfig(lib, config)
    ensures AllFieldsOk(lib, config.nodes) && WellFormed(lib, TopologyOf(lib, config))
  {
    hide FieldsOk, FleetOk, NodeOk, NodeOf, Hostname.IsValid;
    var nodes := NodesOf(lib, config.nodes);
    var topo := TopologyOf(lib, config);
    FleetNamesDistinct(nodes, topo.masters);
    SortMultiset(nodes);
    SortAscending(nodes);
    FleetPermuted(nodes, topo.nodes, topo.masters);
    SameMembers(nodes, topo.nodes);
    forall i | 0 <= i < |topo.nodes| ensures NodeOk(lib, topo.nodes[i]) {
      assert topo.nodes[i] in nodes;
      var k :| 0 <= k < |nodes| && nodes[k] == topo.nodes[i];
      NodeOfIsOk(lib, config.nodes[k]);
    }
  }

  // -------------------------------------------------------------------
  // Listing nodes and masters in another order
  // -------------------------------------------------------------------

  lemma NodesOfMultiset(lib: Library, a: seq<NodeConfig>, b: seq<NodeConfig>)
    requires multiset(a) == multiset(b) && AllFieldsOk(lib, a)
    ensures AllFieldsOk(lib, b) && multiset(NodesOf(lib, a)) == multiset(NodesOf(lib, b))
  {
    hide FieldsOk, NodeOf;
    SameMembers(a, b);
    forall i | 0 <= i < |b| ensures FieldsOk(lib, b[i]) {
      assert b[i] in a;
    }
    ImagePermuted(a, b, NodesOf(lib, a), NodesOf(lib, b));
  }

  lemma ListedAlike(a: TopologyConfig, b: TopologyConfig)
    requires multiset(a.nodes) == multiset(b.nodes) && multiset(a.master) == multiset(b.master)
    ensures HostNames(a) == HostNames(b) && Members(a.master) == Members(b.master)
  {
    SameMembers(a.nodes, b.nodes);
    SameMembers(a.master, b.master);
    NamesIncluded(a, b);
    NamesIncluded(b, a);
  }

  lemma NamesIncluded(a: TopologyConfig, b: TopologyConfig)
    requires forall n :: n in a.nodes ==> n in b.nodes
    ensures HostNames(a) <= HostNames(b)
  {
    forall h | h in HostNames(a) ensures h in HostNames(b) {
      var i :| 0 <= i < |a.nodes| && a.nodes[i].hostname == h;
      assert a.nodes[i] in b.nodes;
    }
  }

  lemma ValidPermuted(lib: Library, a: TopologyConfig, b: TopologyConfig)
    requires multiset(a.nodes) == multiset(b.nodes) && multiset(a.master) == multiset(b.master)
    requires ValidConfig(lib, a)
    ensures ValidConfig(lib, b)
  {
    hide FieldsOk, FleetOk, NodesOf, Hostname.IsValid, HostNames;
    ListedAlike(a, b);
    NodesOfMultiset(lib, a.nodes, b.nodes);
    FleetPermuted(NodesOf(lib, a.nodes), NodesOf(lib, b.nodes), Members(a.master));
    SameMembers(a.nodes, b.nodes);
    SameMembers(a.master, b.master);
    PairwisePermuted(a.master, b.master, (x: string, y: string) => x != y);
    forall i | 0 <= i < |b.nodes| ensures Hostname.IsValid(b.nodes[i].hostname) {
      assert b.nodes[i] in a.nodes;
    }
    forall i | 0 <= i < |b.master| ensures b.master[i] in HostNames(b) {
      assert b.master[i] in a.master;
    }
  }

  /** Permuting the nodes and the master list changes neither the verdict nor the topology. */
  lemma OrderOfNodesIsIrrelevant(lib: Library, a: TopologyConfig, b: TopologyConfig)
    requires multiset(a.nodes) == multiset(b.nodes) && multiset(a.master) == multiset(b.master)
    ensures ValidConfig(lib, a) <==> ValidConfig(lib, b)
    ensures ValidConfig(lib, a) ==>
              && AllFieldsOk(lib, a.nodes) && AllFieldsOk(lib, b.nodes)
              && TopologyOf(lib, a) == TopologyOf(lib, b)
  {
    if ValidConfig(lib, a) {
      ValidPermuted(lib, a, b);
      hide ValidConfig, FieldsOk, FleetOk, NodesOf;
      ValidParts(lib, a);
      ValidParts(lib, b);
      ListedAlike(a, b);
      NodesOfMultiset(lib, a.nodes, b.nodes);
      FleetNamesDistinct(NodesOf(lib, a.nodes), Members(a.master));
      FleetNamesDistinct(NodesOf(lib, b.nodes), Members(b.master));
      SortIsCanonical(NodesOf(lib, a.nodes), NodesOf(lib, b.nodes));
    } else if ValidConfig(lib, b) {
      ValidPermuted(lib, b, a);
    }
  }

  // -------------------------------------------------------------------
  // Listing routes in another order
  // -------------------------------------------------------------------

  /** The same node with its extra routes listed in another order. */
  ghost predicate SameButRoutes(n: ValidatedNode, m: ValidatedNode) {
    n == m.(extraAllowedIps := n.extraAllowedIps) && multiset(n.extraAllowedIps) == multiset(m.extraAllowedIps)
  }

  ghost predicate SameNodesButRoutes(a: seq<ValidatedNode>, b: seq<ValidatedNode>) {
    |a| == |b| && forall i :: 0 <= i < |a| ==> SameButRoutes(a[i], b[i])
  }

  ghost predicate SameConfigButRoutes(a: TopologyConfig, b: TopologyConfig) {
    && a.master == b.master && |a.nodes| == |b.nodes|
    && forall i :: 0 <= i < |a.nodes| ==>
         && a.nodes[i] == b.nodes[i].(wg := b.nodes[i].wg.(extraAllowedIps := a.nodes[i].wg.extraAllowedIps))
         && multiset(a.nodes[i].wg.extraAllowedIps) == multiset(b.nodes[i].wg.extraAllowedIps)
  }

  lemma RoutesMultiset(a: seq<string>, b: seq<string>)
    requires multiset(a) == multiset(b) && forall i :: 0 <= i < |a| ==> RouteOk(a[i])
    ensures forall i :: 0 <= i < |b| ==> RouteOk(b[i])
    ensures multiset(Routes(a)) == multiset(Routes(b))
  {
    hide RouteOk, RouteOf;
    SameMembers(a, b);
    forall i | 0 <= i < |b| ensures RouteOk(b[i]) {
      assert b[i] in a;
    }
    ImagePermuted(a, b, Routes(a), Routes(b));
  }

  lemma RoutesInOrder(n: ValidatedNode, m: ValidatedNode)
    requires multiset(n.extraAllowedIps) == multiset(m.extraAllowedIps) && NoSelfOverlap(n)
    ensures NoSelfOverlap(m)
  {
    hide RangeOf;
    var apart := (r: Net, q: Net) => !Overlap(RangeOf(r), RangeOf(q));
    assert Pairwise(n.extraAllowedIps, apart);
    PairwisePermuted(n.extraAllowedIps, m.extraAllowedIps, apart);
    forall i, k | 0 <= i < k < |m.extraAllowedIps|
      ensures !Overlap(RangeOf(m.extraAllowedIps[i]), RangeOf(m.extraAllowedIps[k]))
    {
      assert apart(m.extraAllowedIps[i], m.extraAllowedIps[k]);
    }
  }

  lemma CompatibleButRoutes(n: ValidatedNode, m: ValidatedNode, n': ValidatedNode, m': ValidatedNode,
                            masters: set<string>)
    requires SameButRoutes(n, n') && SameButRoutes(m, m')
    ensures NoCover(n, m) ==> NoCover(n', m')
    ensures Compatible(n, m, masters) ==> Compatible(n', m', masters)
  {
    hide RangeOf;
    SameMembers(n.extraAllowedIps, n'.extraAllowedIps);
    SameMembers(m.extraAllowedIps, m'.extraAllowedIps);
    assert forall i :: 0 <= i < |n'.extraAllowedIps| ==> n'.extraAllowedIps[i] in n.extraAllowedIps;
    assert forall i :: 0 <= i < |m'.extraAllowedIps| ==> m'.extraAllowedIps[i] in m.extraAllowedIps;
  }

  lemma FleetButRoutes(a: seq<ValidatedNode>, b: seq<ValidatedNode>, masters: set<string>)
    requires SameNodesButRoutes(a, b) && FleetOk(a, masters)
    ensures FleetOk(b, masters)
  {
    hide Compatible, NoCover, NoSelfOverlap, SameButRoutes;
    forall i | 0 <= i < |b| ensures NoCover(b[i], b[i]) && NoSelfOverlap(b[i]) {
      assert SameButRoutes(a[i], b[i]);
      CompatibleButRoutes(a[i], a[i], b[i], b[i], masters);
      RoutesOfSame(a[i], b[i]);
      RoutesInOrder(a[i], b[i]);
    }
    forall i, j | 0 <= i < |b| && 0 <= j < |b| && i != j ensures Compatible(b[i], b[j], masters) {
      assert SameButRoutes(a[i], b[i]) && SameButRoutes(a[j], b[j]);
      CompatibleButRoutes(a[i], a[j], b[i], b[j], masters);
      assert ((n: ValidatedNode, m: ValidatedNode) => Compatible(n, m, masters))(a[i], a[j]);
    }
  }

  lemma RoutesOfSame(n: ValidatedNode, m: ValidatedNode)
    requires SameButRoutes(n, m)
    ensures multiset(n.extraAllowedIps) == multiset(m.extraAllowedIps) && n.hostname == m.hostname
  {
  }

  lemma {:induction false} InsertButRoutes(a: seq<ValidatedNode>, b: seq<ValidatedNode>,
                                           n: ValidatedNode, m: ValidatedNode)
    requires SameNodesButRoutes(a, b) && SameButRoutes(n, m)
    ensures SameNodesButRoutes(InsertByName(a, n), InsertByName(b, m))
  {
    hide SameButRoutes, Less;
    RoutesOfSame(n, m);
    if |a| > 0 {
      assert SameButRoutes(a[0], b[0]);
      RoutesOfSame(a[0], b[0]);
      InsertButRoutes(a[1..], b[1..], n, m);
    }
  }

  lemma {:induction false} SortButRoutes(a: seq<ValidatedNode>, b: seq<ValidatedNode>)
    requires SameNodesButRoutes(a, b)
    ensures SameNodesButRoutes(SortByName(a), SortByName(b))
  {
    if |a| > 0 {
      SortButRoutes(a[1..], b[1..]);
      InsertButRoutes(SortByName(a[1..]), SortByName(b[1..]), a[0], b[0]);
    }
  }

  lemma FieldsButRoutes(lib: Library, n: NodeConfig, m: NodeConfig)
    requires n == m.(wg := m.wg.(extraAllowedIps := n.wg.extraAllowedIps))
    requires multiset(n.wg.extraAllowedIps) == multiset(m.wg.extraAllowedIps)
    requires FieldsOk(lib, n)
    ensures FieldsOk(lib, m) && SameButRoutes(NodeOf(lib, n), NodeOf(lib, m))
  {
    hide RouteOk, TunnelOk, EndpointOk, ParseCanonicalNet;
    RoutesMultiset(n.wg.extraAllowedIps, m.wg.extraAllowedIps);
  }

  lemma ValidButRoutes(lib: Library, a: TopologyConfig, b: TopologyConfig)
    requires SameConfigButRoutes(a, b) && ValidConfig(lib, a)
    ensures ValidConfig(lib, b) && SameNodesButRoutes(NodesOf(lib, a.nodes), NodesOf(lib, b.nodes))
  {
    hide FieldsOk, FleetOk, Hostname.IsValid, NodeOf, SameButRoutes;
    forall i | 0 <= i < |a.nodes|
      ensures FieldsOk(lib, b.nodes[i]) && SameButRoutes(NodeOf(lib, a.nodes[i]), NodeOf(lib, b.nodes[i]))
    {
      FieldsButRoutes(lib, a.nodes[i], b.nodes[i]);
    }
    FleetButRoutes(NodesOf(lib, a.nodes), NodesOf(lib, b.nodes), Members(a.master));
    assert HostNames(a) == HostNames(b);
  }

  lemma SameConfigSymmetric(a: TopologyConfig, b: TopologyConfig)
    requires SameConfigButRoutes(a, b)
    ensures SameConfigButRoutes(b, a)
  {
  }

  /** Permuting any node's extra routes changes the topology only in the order of those routes. */
  lemma OrderOfRoutesIsIrrelevant(lib: Library, a: TopologyConfig, b: TopologyConfig)
    requires SameConfigButRoutes(a, b)
    ensures ValidConfig(lib, a) <==> ValidConfig(lib, b)
    ensures ValidConfig(lib, a) ==>
              && AllFieldsOk(lib, a.nodes) && AllFieldsOk(lib, b.nodes)
              && SameNodesButRoutes(TopologyOf(lib, a).nodes, TopologyOf(lib, b).nodes)
              && TopologyOf(lib, a).masters == TopologyOf(lib, b).masters
  {
    SameConfigSymmetric(a, b);
    if ValidConfig(lib, a) {
      ValidButRoutes(lib, a, b);
      hide ValidConfig, FieldsOk, NodesOf, SameNodesButRoutes;
      ValidParts(lib, a);
      ValidParts(lib, b);
      SortButRoutes(NodesOf(lib, a.nodes), NodesOf(lib, b.nodes));
    } else if ValidConfig(lib, b) {
      ValidButRoutes(lib, b, a);
    }
  }

  // -------------------------------------------------------------------
  // One owner per address
  // -------------------------------------------------------------------

  /** The addresses a node stands for: its tunnel address and its extra routes. */
  ghost predicate Owns(n: ValidatedNode, a: Addr) {
    a == n.tunnelAddress || exists i :: 0 <= i < |n.extraAllowedIps| && Contains(RangeOf(n.extraAllowedIps[i]), a)
  }

  /** In a valid fleet no address has two owners. */
  lemma OneOwner(topo: ValidatedTopology, i: nat, j: nat, a: Addr)
    requires FleetOk(topo.nodes, topo.masters) && i < |topo.nodes| && j < |topo.nodes|
    requires Owns(topo.nodes[i], a) && Owns(topo.nodes[j], a)
    ensures i == j
  {
    FleetPair(topo.nodes, topo.masters, i, j);
    FleetPair(topo.nodes, topo.masters, j, i);
    hide FleetOk, RangeOf;
  }
}
