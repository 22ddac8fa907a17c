/** The validation pass itself, proved against `ValidConfig`. */
module Validator {
  import opened Outcomes
  import opened Ipv4
  import opened Lib
  import opened Order
  import opened Topology
  import opened Validation
  import Hostname

  type Verdict = Option<ValidationError>

  method CheckHostnames(lib: Library, config: TopologyConfig) returns (e: Verdict, seen: set<string>)
    ensures e.Some? ==> Blames(lib, config, e.value)
    ensures e.None? ==> seen == HostNames(config)
    ensures e.None? ==> forall i :: 0 <= i < |config.nodes| ==> Hostname.IsValid(config.nodes[i].hostname)
    ensures e.None? ==> forall i, j :: 0 <= i < j < |config.nodes| ==>
                          config.nodes[i].hostname != config.nodes[j].hostname
  {
    hide Hostname.IsValid;
    seen := {};
    for i := 0 to |config.nodes|
      invariant seen == set k | 0 <= k < i :: config.nodes[k].hostname
      invariant forall k :: 0 <= k < i ==> Hostname.IsValid(config.nodes[k].hostname)
      invariant forall k, l :: 0 <= k < l < i ==> config.nodes[k].hostname != config.nodes[l].hostname
    {
      var h := config.nodes[i].hostname;
      if !Hostname.IsValid(h) {
        assert h in HostNames(config);
        return Some(InvalidHostname(h)), seen;
      }
      if h in seen {
        var k :| 0 <= k < i && config.nodes[k].hostname == h;
        return Some(DuplicateHostname(h)), seen;
      }
      seen := seen + {h};
    }
    e := None;
  }

  method CheckMasters(lib: Library, config: TopologyConfig, seen: set<string>) returns (e: Verdict, masters: set<string>)
    requires seen == HostNames(config)
    ensures e.Some? ==> Blames(lib, config, e.value)
    ensures e.None? ==> masters == Members(config.master)
    ensures e.None? ==> Pairwise(config.master, (a: string, b: string) => a != b)
    ensures e.None? ==> forall i :: 0 <= i < |config.master| ==> config.master[i] in HostNames(config)
  {
    masters := {};
    for i := 0 to |config.master|
      invariant masters == Members(config.master[..i])
      invariant forall k :: 0 <= k < i ==> config.master[k] in seen
      invariant forall k, l :: 0 <= k < l < i ==> config.master[k] != config.master[l]
    {
      var m := config.master[i];
      if m !in seen {
        return Some(UnknownMaster(m)), masters;
      }
      assert config.master[..i + 1] == config.master[..i] + [m];
      if m in masters {
        var k :| 0 <= k < i && config.master[..i][k] == m;
        assert config.master[k] == m;
        return Some(DuplicateMaster(m)), masters;
      }
      masters := masters + {m};
    }
    assert config.master[..|config.master|] == config.master;
    e := None;
  }

  method ParseRoutes(n: NodeConfig) returns (r: Result<seq<Net>, ValidationError>)
    ensures r.Err? ==> forall lib: Library :: FieldDefect(lib, n, r.error)
    ensures r.Ok? ==> (forall i :: 0 <= i < |n.wg.extraAllowedIps| ==> RouteOk(n.wg.extraAllowedIps[i]))
                      && r.value == Routes(n.wg.extraAllowedIps)
  {
    hide ParseCanonicalNet;
    var texts := n.wg.extraAllowedIps;
    var nets: seq<Net> := [];
    for i := 0 to |texts|
      invariant |nets| == i
      invariant forall k :: 0 <= k < i ==> RouteOk(texts[k]) && nets[k] == RouteOf(texts[k])
    {
      var net := ParseCanonicalNet(texts[i]);
      if net.None? {
        return Err(NonCanonicalRoute(n.hostname, texts[i]));
      }
      if net.value.prefix == 0 {
        assert DefaultRoute(texts[i]);
        return Err(DefaultRouteRejected(n.hostname));
      }
      nets := nets + [net.value];
    }
    r := Ok(nets);
  }

  /** One node's own fields, after its tunnel address. */
  method CheckFields(lib: Library, n: NodeConfig, addr: Addr) returns (r: Result<ValidatedNode, ValidationError>)
    requires TunnelOk(n.wg.tunnelAddress) && addr == ParseCanonicalNet(n.wg.tunnelAddress).value.addr
    ensures r.Err? ==> FieldDefect(lib, n, r.error)
    ensures r.Ok? ==> FieldsOk(lib, n) && r.value == NodeOf(lib, n)
  {
    hide TunnelOk, ParseCanonicalNet, EndpointOk, RouteOk;
    if n.wg.listenPort == 0 {
      return Err(InvalidListenPort(n.hostname));
    }
    if n.wg.endpoint.Some? && !EndpointOk(lib, n.wg.endpoint.value) {
      return Err(InvalidEndpoint(n.hostname));
    }
    var dns := None;
    if n.wg.dns.Some? {
      dns := lib.parseIp(n.wg.dns.value);
      if dns.None? {
        return Err(InvalidDns(n.hostname));
      }
    }
    if n.wg.mtu.Some? && n.wg.mtu.value < MIN_MTU {
      return Err(InvalidMtu(n.hostname));
    }
    var nets := ParseRoutes(n);
    if nets.Err? {
      return Err(nets.error);
    }
    r := Ok(ValidatedNode(n.hostname, addr, n.wg.listenPort, n.wg.endpoint, dns, n.wg.mtu, nets.value,
                          n.wg.persistentKeepalive));
  }

  method ValidateNodes(lib: Library, config: TopologyConfig) returns (r: Result<seq<ValidatedNode>, ValidationError>)
    ensures r.Err? ==> Blames(lib, config, r.error)
    ensures r.Ok? ==> AllFieldsOk(lib, config.nodes) && r.value == NodesOf(lib, config.nodes)
    ensures r.Ok? ==> forall i, j :: 0 <= i < j < |r.value| ==> r.value[i].tunnelAddress != r.value[j].tunnelAddress
  {
    hide TunnelOk, ParseCanonicalNet, FieldsOk, FieldDefect, NodeOf, SharedTunnel, PairDefect;
    var nodes: seq<ValidatedNode> := [];
    var owners: map<Addr, string> := map[];
    for i := 0 to |config.nodes|
      invariant |nodes| == i
      invariant forall k :: 0 <= k < i ==> FieldsOk(lib, config.nodes[k]) && nodes[k] == NodeOf(lib, config.nodes[k])
      invariant forall k, l :: 0 <= k < l < i ==> nodes[k].tunnelAddress != nodes[l].tunnelAddress
      invariant forall a :: a in owners ==> exists k :: 0 <= k < i && nodes[k].tunnelAddress == a && nodes[k].hostname == owners[a]
      invariant forall k :: 0 <= k < i ==> nodes[k].tunnelAddress in owners
    {
      var n := config.nodes[i];
      var addr := TunnelAddress(n);
      if addr.None? {
        TunnelDefect(lib, n);
        return Err(InvalidTunnelAddress(n.hostname));
      }
      if addr.value in owners {
        var k :| 0 <= k < i && nodes[k].tunnelAddress == addr.value && nodes[k].hostname == owners[addr.value];
        TunnelOfNode(lib, config.nodes[k]);
        SharedDefect(config, k, i);
        return Err(DuplicateTunnelAddress(owners[addr.value], n.hostname));
      }
      owners := owners[addr.value := n.hostname];
      var node := CheckFields(lib, n, addr.value);
      if node.Err? {
        DefectIsBlame(lib, config, i, node.error);
        return Err(node.error);
      }
      TunnelOfNode(lib, n);
      nodes := nodes + [node.value];
    }
    assert nodes == NodesOf(lib, config.nodes);
    r := Ok(nodes);
  }

  function TunnelAddress(n: NodeConfig): (a: Option<Addr>)
    ensures a.Some? <==> TunnelOk(n.wg.tunnelAddress)
    ensures a.Some? ==> a.value == ParseCanonicalNet(n.wg.tunnelAddress).value.addr
  {
    var net := ParseCanonicalNet(n.wg.tunnelAddress);
    if net.Some? && net.value.prefix == 32 then Some(net.value.addr) else None
  }

  lemma TunnelDefect(lib: Library, n: NodeConfig)
    requires !TunnelOk(n.wg.tunnelAddress)
    ensures FieldDefect(lib, n, InvalidTunnelAddress(n.hostname))
  {
  }

  lemma SharedDefect(config: TopologyConfig, k: nat, i: nat)
    requires k < i < |config.nodes|
    requires TunnelOk(config.nodes[k].wg.tunnelAddress) && TunnelOk(config.nodes[i].wg.tunnelAddress)
    requires ParseCanonicalNet(config.nodes[k].wg.tunnelAddress).value.addr
          == ParseCanonicalNet(config.nodes[i].wg.tunnelAddress).value.addr
    ensures SharedTunnel(config, k, i, DuplicateTunnelAddress(config.nodes[k].hostname, config.nodes[i].hostname))
  {
    hide TunnelOk, ParseCanonicalNet;
  }

  lemma DefectIsBlame(lib: Library, config: TopologyConfig, i: nat, e: ValidationError)
    requires i < |config.nodes| && FieldDefect(lib, config.nodes[i], e)
    ensures Blames(lib, config, e)
  {
    hide TunnelOk, ParseCanonicalNet, EndpointOk;
  }

  // -------------------------------------------------------------------
  // Fleet checks
  // -------------------------------------------------------------------

  /** Defects of routes do not depend on who is a master. */
  lemma RouteDefect(nodes: seq<ValidatedNode>, i: nat, j: nat, e: ValidationError)
    requires i < |nodes| && j < |nodes| && !e.EdgeMissingEndpoint? && PairDefect(nodes, {}, i, j, e)
    ensures forall m :: Defective(nodes, m, e)
  {
    hide NoCover, NoOverlap, NoSelfOverlap;
    forall m ensures Defective(nodes, m, e) {
      assert PairDefect(nodes, m, i, j, e);
    }
  }

  /** No route of node `i` covers any node's tunnel address. */
  method CheckCovers(nodes: seq<ValidatedNode>, i: nat) returns (e: Verdict)
    requires i < |nodes|
    ensures e.Some? ==> forall m :: Defective(nodes, m, e.value)
    ensures e.None? ==> forall k :: 0 <= k < |nodes| ==> NoCover(nodes[i], nodes[k])
  {
    hide RangeOf, Contains, Defective;
    var routes := nodes[i].extraAllowedIps;
    for r := 0 to |routes|
      invariant forall q, k :: 0 <= q < r && 0 <= k < |nodes| ==> !Contains(RangeOf(routes[q]), nodes[k].tunnelAddress)
    {
      for k := 0 to |nodes|
        invariant forall l :: 0 <= l < k ==> !Contains(RangeOf(routes[r]), nodes[l].tunnelAddress)
      {
        if Contains(RangeOf(routes[r]), nodes[k].tunnelAddress) {
          var error := RouteCoversTunnelAddress(nodes[i].hostname, nodes[k].hostname);
          assert !NoCover(nodes[i], nodes[k]);
          RouteDefect(nodes, i, k, error);
          return Some(error);
        }
      }
    }
    e := None;
  }

  /** Routes of nodes `i` and `j` are disjoint. */
  method CheckDisjoint(nodes: seq<ValidatedNode>, i: nat, j: nat) returns (e: Verdict)
    requires i < j < |nodes|
    ensures e.Some? ==> forall m :: Defective(nodes, m, e.value)
    ensures e.None? ==> NoOverlap(nodes[i], nodes[j])
  {
    hide RangeOf, Overlap, Defective;
    var a, b := nodes[i].extraAllowedIps, nodes[j].extraAllowedIps;
    for p := 0 to |a|
      invariant forall k, l :: 0 <= k < p && 0 <= l < |b| ==> !Overlap(RangeOf(a[k]), RangeOf(b[l]))
    {
      for q := 0 to |b|
        invariant forall l :: 0 <= l < q ==> !Overlap(RangeOf(a[p]), RangeOf(b[l]))
      {
        if Overlap(RangeOf(a[p]), RangeOf(b[q])) {
          var error := OverlappingRoutes(nodes[i].hostname, nodes[j].hostname);
          RouteDefect(nodes, i, j, error);
          return Some(error);
        }
      }
    }
    e := None;
  }

  /** Routes of node `i` are disjoint from one another. */
  method CheckOwn(nodes: seq<ValidatedNode>, i: nat) returns (e: Verdict)
    requires i < |nodes|
    ensures e.Some? ==> forall m :: Defective(nodes, m, e.value)
    ensures e.None? ==> NoSelfOverlap(nodes[i])
  {
    hide RangeOf, Overlap, Defective;
    var a := nodes[i].extraAllowedIps;
    for p := 0 to |a|
      invariant forall k, l :: 0 <= k < p && k < l < |a| ==> !Overlap(RangeOf(a[k]), RangeOf(a[l]))
    {
      for q := p + 1 to |a|
        invariant forall l :: p < l < q ==> !Overlap(RangeOf(a[p]), RangeOf(a[l]))
      {
        if Overlap(RangeOf(a[p]), RangeOf(a[q])) {
          var error := OverlappingRoutes(nodes[i].hostname, nodes[i].hostname);
          RouteDefect(nodes, i, i, error);
          return Some(error);
        }
      }
    }
    e := None;
  }

  ghost predicate Defective(nodes: seq<ValidatedNode>, masters: set<string>, e: ValidationError) {
    exists i, j :: 0 <= i < |nodes| && 0 <= j < |nodes| && PairDefect(nodes, masters, i, j, e)
  }

  method CheckRoutes(nodes: seq<ValidatedNode>) returns (e: Verdict)
    ensures e.Some? ==> forall m :: Defective(nodes, m, e.value)
    ensures e.None? ==> forall i, k :: 0 <= i < |nodes| && 0 <= k < |nodes| ==> NoCover(nodes[i], nodes[k])
    ensures e.None? ==> forall i, k :: 0 <= i < k < |nodes| ==> NoOverlap(nodes[i], nodes[k])
    ensures e.None? ==> forall i :: 0 <= i < |nodes| ==> NoSelfOverlap(nodes[i])
  {
    hide NoCover, NoOverlap, NoSelfOverlap, Defective;
    for i := 0 to |nodes|
      invariant forall j, k :: 0 <= j < i && 0 <= k < |nodes| ==> NoCover(nodes[j], nodes[k])
      invariant forall j, k :: 0 <= j < i && j < k < |nodes| ==> NoOverlap(nodes[j], nodes[k])
      invariant forall j :: 0 <= j < i ==> NoSelfOverlap(nodes[j])
    {
      e := CheckCovers(nodes, i);
      if e.Some? {
        return;
      }
      for j := i + 1 to |nodes|
        invariant forall k :: i < k < j ==> NoOverlap(nodes[i], nodes[k])
      {
        e := CheckDisjoint(nodes, i, j);
        if e.Some? {
          return;
        }
      }
      e := CheckOwn(nodes, i);
      if e.Some? {
        return;
      }
    }
    e := None;
  }

  method FindNode(nodes: seq<ValidatedNode>, h: string) returns (i: nat)
    requires h in Names(nodes)
    ensures i < |nodes| && nodes[i].hostname == h
  {
    ghost var k :| 0 <= k < |nodes| && Names(nodes)[k] == h;
    i := 0;
    while nodes[i].hostname != h
      invariant i <= k
      decreases k - i
    {
      i := i + 1;
    }
  }

  predicate EndpointFor(n: ValidatedNode, m: ValidatedNode, masters: set<string>) {
    Adjacent(n.hostname, m.hostname, masters) ==> n.endpoint.Some? || m.endpoint.Some?
  }

  predicate Joined(n: ValidatedNode, m: ValidatedNode, edges: set<Edge>) {
    (n.hostname, m.hostname) in edges ==> n.endpoint.Some? || m.endpoint.Some?
  }

  /** Every edge before the one the error names has an endpoint. */
  ghost predicate IsFirstMissing(nodes: seq<ValidatedNode>, masters: set<string>, e: ValidationError) {
    && e.EdgeMissingEndpoint?
    && forall k, l :: 0 <= k < |nodes| && 0 <= l < |nodes| ==>
         EdgeLess((nodes[k].hostname, nodes[l].hostname), (e.a, e.b)) ==>
           Joined(nodes[k], nodes[l], EdgeSet(HostSet(Names(nodes)), masters))
  }

  /** Every edge has an endpoint on some side, or the first that has none is named; its nodes are always found. */
  method CheckEdges(nodes: seq<ValidatedNode>, masters: set<string>) returns (e: Verdict)
    requires DistinctNames(nodes)
    ensures e.Some? ==> Defective(nodes, masters, e.value) && IsFirstMissing(nodes, masters, e.value)
    ensures e.None? ==> forall i, j :: 0 <= i < |nodes| && 0 <= j < |nodes| ==> EndpointFor(nodes[i], nodes[j], masters)
  {
    hide EdgeSet, EdgeLess;
    var edges := ComputeEdges(Names(nodes), masters);
    ghost var hosts := HostSet(Names(nodes));
    var left := edges;
    while left != {}
      invariant left <= edges
      invariant forall i, j :: 0 <= i < |nodes| && 0 <= j < |nodes| ==> Joined(nodes[i], nodes[j], edges - left)
      decreases |left|
    {
      var edge := FirstEdge(left);
      EdgeEnds(hosts, masters, edge);
      var i := FindNode(nodes, edge.0);
      var j := FindNode(nodes, edge.1);
      if nodes[i].endpoint.None? && nodes[j].endpoint.None? {
        var error := EdgeMissingEndpoint(edge.0, edge.1);
        assert PairDefect(nodes, masters, i, j, error);
        forall k, l | 0 <= k < |nodes| && 0 <= l < |nodes|
          ensures EdgeLess((nodes[k].hostname, nodes[l].hostname), edge) ==> Joined(nodes[k], nodes[l], edges)
        {
          assert Joined(nodes[k], nodes[l], edges - left);
        }
        return Some(error);
      }
      forall k, l | 0 <= k < |nodes| && 0 <= l < |nodes| ensures Joined(nodes[k], nodes[l], edges - (left - {edge})) {
        assert Joined(nodes[k], nodes[l], edges - left);
        if (nodes[k].hostname, nodes[l].hostname) == edge {
          assert k == i && l == j;
        }
      }
      left := left - {edge};
    }
    forall i, j | 0 <= i < |nodes| && 0 <= j < |nodes| ensures EndpointFor(nodes[i], nodes[j], masters) {
      var a, b := nodes[i].hostname, nodes[j].hostname;
      assert Names(nodes)[i] == a && Names(nodes)[j] == b;
      if Adjacent(a, b, masters) {
        EdgeMember(hosts, masters, a, b);
        assert Joined(nodes[i], nodes[j], edges) && Joined(nodes[j], nodes[i], edges);
      }
    }
    e := None;
  }

  lemma Assembled(nodes: seq<ValidatedNode>, masters: set<string>)
    requires DistinctNames(nodes)
    requires forall i, j :: 0 <= i < j < |nodes| ==> nodes[i].tunnelAddress != nodes[j].tunnelAddress
    requires forall i, k :: 0 <= i < |nodes| && 0 <= k < |nodes| ==> NoCover(nodes[i], nodes[k])
    requires forall i, k :: 0 <= i < k < |nodes| ==> NoOverlap(nodes[i], nodes[k])
    requires forall i :: 0 <= i < |nodes| ==> NoSelfOverlap(nodes[i])
    requires forall i, j :: 0 <= i < |nodes| && 0 <= j < |nodes| ==> EndpointFor(nodes[i], nodes[j], masters)
    ensures FleetOk(nodes, masters)
  {
    hide NoCover, NoSelfOverlap;
    forall i, j | 0 <= i < |nodes| && 0 <= j < |nodes| && i != j ensures Compatible(nodes[i], nodes[j], masters) {
      if j < i {
        assert NoOverlap(nodes[j], nodes[i]);
      }
      assert EndpointFor(nodes[i], nodes[j], masters);
    }
  }

  ghost function TopologyOf(lib: Library, config: TopologyConfig): ValidatedTopology
    requires AllFieldsOk(lib, config.nodes)
  {
    ValidatedTopology(SortByName(NodesOf(lib, config.nodes)), Members(config.master))
  }

  /** Validation succeeds exactly on valid configurations and yields their topology; a rejection names a
      defect that is there. The flag is the warning about an empty master list. */
  method Validate(lib: Library, config: TopologyConfig)
    returns (r: Result<(ValidatedTopology, bool), ValidationError>)
    ensures r.Ok? <==> ValidConfig(lib, config)
    ensures r.Ok? ==> AllFieldsOk(lib, config.nodes) && r.value == (TopologyOf(lib, config), config.master == [])
    ensures r.Err? ==> Blames(lib, config, r.error)
  {
    hide FleetOk, NodesOf, Hostname.IsValid, FieldsOk, FieldDefect, SharedTunnel, NoCover, NoOverlap, NoSelfOverlap,
      SortByName, HostNames;
    if |config.nodes| == 0 {
      return Err(EmptyNodes);
    }
    if |config.nodes| > MAX_NODES {
      return Err(TooManyNodes(|config.nodes|));
    }
    var e, seen := CheckHostnames(lib, config);
    if e.Some? {
      BlamedIsInvalid(lib, config, e.value);
      return Err(e.value);
    }
    var masters: set<string>;
    e, masters := CheckMasters(lib, config, seen);
    if e.Some? {
      BlamedIsInvalid(lib, config, e.value);
      return Err(e.value);
    }
    var warning := masters == {};
    NoMasters(config.master);
    var nodes := ValidateNodes(lib, config);
    if nodes.Err? {
      BlamedIsInvalid(lib, config, nodes.error);
      return Err(nodes.error);
    }
    NamesOfNodes(lib, config);
    e := CheckRoutes(nodes.value);
    if e.Some? {
      DefectiveIsBlame(lib, config, e.value);
      BlamedIsInvalid(lib, config, e.value);
      return Err(e.value);
    }
    e := CheckEdges(nodes.value, masters);
    if e.Some? {
      DefectiveIsBlame(lib, config, e.value);
      BlamedIsInvalid(lib, config, e.value);
      return Err(e.value);
    }
    Assembled(nodes.value, masters);
    r := Ok((ValidatedTopology(SortByName(nodes.value), masters), warning));
  }

  lemma NoMasters(master: seq<string>)
    ensures Members(master) == {} <==> master == []
  {
    if |master| > 0 {
      assert master[0] in Members(master);
    }
  }

  lemma NamesOfNodes(lib: Library, config: TopologyConfig)
    requires AllFieldsOk(lib, config.nodes)
    requires forall i, j :: 0 <= i < j < |config.nodes| ==> config.nodes[i].hostname != config.nodes[j].hostname
    ensures DistinctNames(NodesOf(lib, config.nodes))
  {
  }

  lemma DefectiveIsBlame(lib: Library, config: TopologyConfig, e: ValidationError)
    requires AllFieldsOk(lib, config.nodes) && Defective(NodesOf(lib, config.nodes), Members(config.master), e)
    ensures Blames(lib, config, e)
  {
    hide FieldsOk, NoCover, NoOverlap, NoSelfOverlap;
  }
}
