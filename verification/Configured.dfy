/** Validation against the text of the configuration: which configurations it accepts, and what it makes of them. */
module Configured {
  import opened Outcomes
  import opened Text
  import opened Ipv4
  import opened Lib
  import opened Order
  import opened Topology
  import opened Validation
  import opened Validator
  import opened Fleet
  import Hostname

  // -------------------------------------------------------------------
  // Addresses claimed by the texts of a configuration
  // -------------------------------------------------------------------

  /** The network contains the address: they agree in the leading bits. */
  predicate Covers(net: Net, a: int) {
    Pow2Positive(32 - net.prefix);
    0 <= a < 0x1_0000_0000 && a / Pow2(32 - net.prefix) == net.addr / Pow2(32 - net.prefix)
  }

  /** No bits are set below the prefix. */
  predicate HasNoHostBits(net: Net) {
    Pow2Positive(32 - net.prefix);
    net.addr % Pow2(32 - net.prefix) == 0
  }

  lemma BlockOf(a: nat, x: nat, size: nat)
    requires size > 0
    ensures a - a % size <= x <= a - a % size + size - 1 <==> x / size == a / size
  {
    assert a == size * (a / size) + a % size && x == size * (x / size) + x % size;
    var q, r := a / size, x / size;
    if q < r {
      assert size * (q + 1) <= size * r;
    } else if r < q {
      assert size * (r + 1) <= size * q;
    }
  }

  lemma {:induction false} Pow2Splits(k: nat)
    requires k <= 32
    ensures Pow2(k) * Pow2(32 - k) == 0x1_0000_0000
    decreases 32 - k
  {
    if k == 32 {
      AllAddresses();
      assert Pow2(0) == 1;
    } else {
      Pow2Splits(k + 1);
      assert Pow2(k + 1) == 2 * Pow2(k) && Pow2(32 - k) == 2 * Pow2(32 - (k + 1));
      Regroup(Pow2(k), Pow2(32 - (k + 1)));
    }
  }

  lemma AllAddresses()
    ensures Pow2(32) == 0x1_0000_0000
  {
    assert Pow2(4) == 16;
    assert Pow2(8) == 0x100;
    assert Pow2(12) == 0x1000;
    assert Pow2(16) == 0x1_0000;
    assert Pow2(20) == 0x10_0000;
    assert Pow2(24) == 0x100_0000;
    assert Pow2(28) == 0x1000_0000;
  }

  lemma Regroup(x: nat, y: nat)
    ensures (2 * x) * y == x * (2 * y)
  {
  }

  /** A network never reaches beyond the last address. */
  lemma RangeFits(net: Net)
    ensures 0 <= RangeOf(net).lo && RangeOf(net).hi < 0x1_0000_0000
  {
    var size, blocks := Pow2(32 - net.prefix), Pow2(net.prefix);
    Pow2Positive(32 - net.prefix);
    Pow2Splits(net.prefix);
    BlockFits(net.addr, size, blocks);
  }

  lemma BlockFits(a: nat, size: nat, blocks: nat)
    requires size > 0 && blocks * size == 0x1_0000_0000 && a < 0x1_0000_0000
    ensures a - a % size + size - 1 < 0x1_0000_0000
  {
    assert a == size * (a / size) + a % size;
    var q := a / size;
    Scaled(size, blocks, q);
    Scaled(size, q + 1, blocks);
  }

  lemma Scaled(size: nat, x: nat, y: nat)
    ensures x <= y ==> size * x <= size * y
  {
  }

  /** The range of a network is the set of addresses it covers. */
  lemma RangeIsCover(net: Net, a: int)
    ensures Contains(RangeOf(net), a) <==> Covers(net, a)
  {
    Pow2Positive(32 - net.prefix);
    RangeFits(net);
    if 0 <= a < 0x1_0000_0000 {
      BlockOf(net.addr, a, Pow2(32 - net.prefix));
    }
  }

  lemma CanonicalMeans(net: Net)
    ensures Ipv4.IsCanonical(net) <==> HasNoHostBits(net)
  {
  }

  /** What text `k` of the node's addresses stands for: its tunnel address, then its routes. */
  function AddressText(n: NodeConfig, k: nat): string
    requires k <= |n.wg.extraAllowedIps|
  {
    if k == 0 then n.wg.tunnelAddress else n.wg.extraAllowedIps[k - 1]
  }

  /** Address `a` is claimed by text `k` of node `n`. */
  predicate Claims(n: NodeConfig, k: nat, a: int) {
    k <= |n.wg.extraAllowedIps| && ParseNet(AddressText(n, k)).Some? && Covers(ParseNet(AddressText(n, k)).value, a)
  }

  // -------------------------------------------------------------------
  // Acceptance
  // -------------------------------------------------------------------

  predicate TunnelTextOk(s: string) {
    ParseNet(s).Some? && ParseNet(s).value.prefix == 32
  }

  predicate RouteTextOk(s: string) {
    ParseNet(s).Some? && HasNoHostBits(ParseNet(s).value) && ParseNet(s).value.prefix != 0
  }

  predicate NodeTextOk(lib: Library, n: NodeConfig) {
    && Hostname.IsValid(n.hostname)
    && TunnelTextOk(n.wg.tunnelAddress)
    && n.wg.listenPort > 0
    && (n.wg.endpoint.Some? ==> EndpointOk(lib, n.wg.endpoint.value))
    && (n.wg.dns.Some? ==> lib.parseIp(n.wg.dns.value).Some?)
    && (n.wg.mtu.Some? ==> n.wg.mtu.value >= 576)
    && forall r :: r in n.wg.extraAllowedIps ==> RouteTextOk(r)
  }

  /** No address is claimed twice, in one node or in two. */
  ghost predicate ClaimsAreApart(config: TopologyConfig) {
    forall i, j :: 0 <= i < |config.nodes| && 0 <= j < |config.nodes| ==>
      OneClaim(config.nodes[i], config.nodes[j], i == j)
  }

  /** An address claimed by both is claimed by one text of one node. */
  ghost predicate OneClaim(n: NodeConfig, m: NodeConfig, same: bool) {
    forall k: nat, l: nat, a :: Claims(n, k, a) && Claims(m, l, a) ==> same && k == l
  }

  /** Two nodes of which one is a master have an endpoint between them. */
  ghost predicate ReachesMasters(config: TopologyConfig) {
    forall i, j :: 0 <= i < |config.nodes| && 0 <= j < |config.nodes| && i != j && config.nodes[i].hostname in config.master ==>
      config.nodes[i].wg.endpoint.Some? || config.nodes[j].wg.endpoint.Some?
  }

  ghost predicate NamesAreApart(config: TopologyConfig) {
    && (forall i, j :: 0 <= i < j < |config.nodes| ==> config.nodes[i].hostname != config.nodes[j].hostname)
    && (forall i, j :: 0 <= i < j < |config.master| ==> config.master[i] != config.master[j])
    && forall m :: m in config.master ==> exists i :: 0 <= i < |config.nodes| && config.nodes[i].hostname == m
  }

  ghost predicate IsAcceptable(lib: Library, config: TopologyConfig) {
    && 1 <= |config.nodes| <= 4096
    && (forall i :: 0 <= i < |config.nodes| ==> NodeTextOk(lib, config.nodes[i]))
    && NamesAreApart(config) && ClaimsAreApart(config) && ReachesMasters(config)
  }

  lemma FieldsAreTexts(lib: Library, n: NodeConfig)
    ensures NodeTextOk(lib, n) <==> Hostname.IsValid(n.hostname) && FieldsOk(lib, n)
  {
    hide EndpointOk, Hostname.IsValid, ParseNet, Network;
    TunnelMeans(n.wg.tunnelAddress);
    forall r ensures RouteTextOk(r) <==> RouteOk(r) {
      RouteMeans(r);
    }
    hide RouteTextOk, RouteOk, TunnelTextOk, TunnelOk;
    if NodeTextOk(lib, n) {
      forall i | 0 <= i < |n.wg.extraAllowedIps| ensures RouteOk(n.wg.extraAllowedIps[i]) {
        assert n.wg.extraAllowedIps[i] in n.wg.extraAllowedIps;
      }
    }
  }

  lemma TunnelMeans(s: string)
    ensures TunnelTextOk(s) <==> TunnelOk(s)
    ensures TunnelOk(s) ==> ParseNet(s) == Some(Net(ParseCanonicalNet(s).value.addr, 32))
  {
    hide ParseNet;
    if ParseNet(s).Some? {
      HostRange(ParseNet(s).value.addr);
      CanonicalMeans(ParseNet(s).value);
    }
  }

  lemma RouteMeans(s: string)
    ensures RouteTextOk(s) <==> RouteOk(s)
    ensures RouteOk(s) ==> ParseNet(s) == Some(RouteOf(s))
  {
    hide ParseNet;
    if ParseNet(s).Some? {
      CanonicalMeans(ParseNet(s).value);
    }
  }

  // -------------------------------------------------------------------
  // The validated node
  // -------------------------------------------------------------------

  /** The topology's node says what the configured one says. */
  ghost predicate SaysTheSame(lib: Library, c: NodeConfig, n: ValidatedNode) {
    && n.hostname == c.hostname && n.listenPort == c.wg.listenPort && n.endpoint == c.wg.endpoint && n.mtu == c.wg.mtu
    && n.persistentKeepalive == c.wg.persistentKeepalive
    && ParseNet(c.wg.tunnelAddress) == Some(Net(n.tunnelAddress, 32))
    && (c.wg.dns.None? ==> n.dns.None?) && (c.wg.dns.Some? ==> n.dns.Some? && n.dns == lib.parseIp(c.wg.dns.value))
    && |n.extraAllowedIps| == |c.wg.extraAllowedIps|
    && forall k :: 0 <= k < |n.extraAllowedIps| ==> ParseNet(c.wg.extraAllowedIps[k]) == Some(n.extraAllowedIps[k])
  }

  lemma NodeSaysTheSame(lib: Library, c: NodeConfig)
    requires FieldsOk(lib, c)
    ensures SaysTheSame(lib, c, NodeOf(lib, c))
  {
    hide EndpointOk, ParseNet, RouteOf, RouteOk, ParseCanonicalNet, TunnelOk;
    TunnelMeans(c.wg.tunnelAddress);
    forall k | 0 <= k < |c.wg.extraAllowedIps|
      ensures ParseNet(c.wg.extraAllowedIps[k]) == Some(Routes(c.wg.extraAllowedIps)[k])
    {
      RouteMeans(c.wg.extraAllowedIps[k]);
    }
  }

  /** The network of text `k`. */
  function NetAt(n: ValidatedNode, k: nat): Net
    requires k <= |n.extraAllowedIps|
  {
    if k == 0 then Host(n.tunnelAddress) else n.extraAllowedIps[k - 1]
  }

  lemma ClaimIsRange(lib: Library, c: NodeConfig, n: ValidatedNode, k: nat, a: int)
    requires SaysTheSame(lib, c, n)
    ensures Claims(c, k, a) <==> k <= |n.extraAllowedIps| && Contains(RangeOf(NetAt(n, k)), a)
  {
    hide ParseNet, RangeOf, Covers;
    if k <= |n.extraAllowedIps| {
      assert ParseNet(AddressText(c, k)) == Some(NetAt(n, k));
      RangeIsCover(NetAt(n, k), a);
    }
  }

  /** Two claims meet iff the networks overlap. */
  lemma ClaimsMeet(lib: Library, c: NodeConfig, n: ValidatedNode, d: NodeConfig, m: ValidatedNode, k: nat, l: nat)
    requires SaysTheSame(lib, c, n) && SaysTheSame(lib, d, m) && k <= |n.extraAllowedIps| && l <= |m.extraAllowedIps|
    ensures (exists a :: Claims(c, k, a) && Claims(d, l, a)) <==> Overlap(RangeOf(NetAt(n, k)), RangeOf(NetAt(m, l)))
  {
    hide Claims, SaysTheSame, RangeOf;
    RangeNonEmpty(NetAt(n, k));
    RangeNonEmpty(NetAt(m, l));
    OverlapMeansShared(RangeOf(NetAt(n, k)), RangeOf(NetAt(m, l)));
    forall a ensures Claims(c, k, a) <==> Contains(RangeOf(NetAt(n, k)), a) {
      ClaimIsRange(lib, c, n, k, a);
    }
    forall a ensures Claims(d, l, a) <==> Contains(RangeOf(NetAt(m, l)), a) {
      ClaimIsRange(lib, d, m, l, a);
    }
  }

  /** No two of the networks of two nodes, or of one, overlap. */
  ghost predicate NetsApart(n: ValidatedNode, m: ValidatedNode, same: bool) {
    forall k, l :: 0 <= k <= |n.extraAllowedIps| && 0 <= l <= |m.extraAllowedIps| && !(same && k == l) ==>
      !Overlap(RangeOf(NetAt(n, k)), RangeOf(NetAt(m, l)))
  }

  lemma SelfApart(n: ValidatedNode)
    ensures NetsApart(n, n, true) <==> NoCover(n, n) && NoSelfOverlap(n)
  {
    HostRange(n.tunnelAddress);
    hide RangeOf, Host;
    if NetsApart(n, n, true) {
      forall i | 0 <= i < |n.extraAllowedIps| ensures !Contains(RangeOf(n.extraAllowedIps[i]), n.tunnelAddress) {
        assert !Overlap(RangeOf(NetAt(n, i + 1)), RangeOf(NetAt(n, 0)));
      }
      forall i, k | 0 <= i < k < |n.extraAllowedIps|
        ensures !Overlap(RangeOf(n.extraAllowedIps[i]), RangeOf(n.extraAllowedIps[k]))
      {
        assert !Overlap(RangeOf(NetAt(n, i + 1)), RangeOf(NetAt(n, k + 1)));
      }
    }
    if NoCover(n, n) && NoSelfOverlap(n) {
      forall k, l | 0 <= k <= |n.extraAllowedIps| && 0 <= l <= |n.extraAllowedIps| && k != l
        ensures !Overlap(RangeOf(NetAt(n, k)), RangeOf(NetAt(n, l)))
      {
        if k > 0 && l > 0 {
          assert !Overlap(RangeOf(n.extraAllowedIps[k - 1]), RangeOf(n.extraAllowedIps[l - 1]));
        }
      }
    }
  }

  lemma PairApart(n: ValidatedNode, m: ValidatedNode)
    ensures NetsApart(n, m, false) <==> n.tunnelAddress != m.tunnelAddress && NoCover(n, m) && NoCover(m, n) && NoOverlap(n, m)
  {
    HostRange(n.tunnelAddress);
    HostRange(m.tunnelAddress);
    hide RangeOf, Host;
    if NetsApart(n, m, false) {
      assert !Overlap(RangeOf(NetAt(n, 0)), RangeOf(NetAt(m, 0)));
      forall i | 0 <= i < |n.extraAllowedIps| ensures !Contains(RangeOf(n.extraAllowedIps[i]), m.tunnelAddress) {
        assert !Overlap(RangeOf(NetAt(n, i + 1)), RangeOf(NetAt(m, 0)));
      }
      forall i | 0 <= i < |m.extraAllowedIps| ensures !Contains(RangeOf(m.extraAllowedIps[i]), n.tunnelAddress) {
        assert !Overlap(RangeOf(NetAt(n, 0)), RangeOf(NetAt(m, i + 1)));
      }
      forall i, k | 0 <= i < |n.extraAllowedIps| && 0 <= k < |m.extraAllowedIps|
        ensures !Overlap(RangeOf(n.extraAllowedIps[i]), RangeOf(m.extraAllowedIps[k]))
      {
        assert !Overlap(RangeOf(NetAt(n, i + 1)), RangeOf(NetAt(m, k + 1)));
      }
    }
  }

  // -------------------------------------------------------------------
  // Validation accepts exactly the acceptable configurations
  // -------------------------------------------------------------------

  ghost predicate Mirrors(lib: Library, config: TopologyConfig, nodes: seq<ValidatedNode>) {
    |nodes| == |config.nodes| && forall i :: 0 <= i < |nodes| ==> SaysTheSame(lib, config.nodes[i], nodes[i])
  }

  lemma NodesMirror(lib: Library, config: TopologyConfig)
    requires AllFieldsOk(lib, config.nodes)
    ensures Mirrors(lib, config, NodesOf(lib, config.nodes))
  {
    hide FieldsOk, NodeOf, SaysTheSame;
    forall i | 0 <= i < |config.nodes| ensures SaysTheSame(lib, config.nodes[i], NodesOf(lib, config.nodes)[i]) {
      NodeSaysTheSame(lib, config.nodes[i]);
    }
  }

  ghost predicate AllApart(nodes: seq<ValidatedNode>) {
    forall i, j :: 0 <= i < |nodes| && 0 <= j < |nodes| ==> NetsApart(nodes[i], nodes[j], i == j)
  }

  lemma ClaimsAreNets(lib: Library, config: TopologyConfig, nodes: seq<ValidatedNode>)
    requires Mirrors(lib, config, nodes)
    ensures ClaimsAreApart(config) <==> AllApart(nodes)
  {
    hide Claims, SaysTheSame, RangeOf, Overlap, Contains;
    if ClaimsAreApart(config) {
      forall i, j | 0 <= i < |nodes| && 0 <= j < |nodes| ensures NetsApart(nodes[i], nodes[j], i == j) {
        assert OneClaim(config.nodes[i], config.nodes[j], i == j);
        forall k, l | 0 <= k <= |nodes[i].extraAllowedIps| && 0 <= l <= |nodes[j].extraAllowedIps| && !(i == j && k == l)
          ensures !Overlap(RangeOf(NetAt(nodes[i], k)), RangeOf(NetAt(nodes[j], l)))
        {
          ClaimsMeet(lib, config.nodes[i], nodes[i], config.nodes[j], nodes[j], k, l);
        }
      }
    }
    if AllApart(nodes) {
      forall i, j | 0 <= i < |nodes| && 0 <= j < |nodes| ensures OneClaim(config.nodes[i], config.nodes[j], i == j) {
        assert NetsApart(nodes[i], nodes[j], i == j);
        forall k: nat, l: nat, a | Claims(config.nodes[i], k, a) && Claims(config.nodes[j], l, a)
          ensures i == j && k == l
        {
          ClaimIsRange(lib, config.nodes[i], nodes[i], k, a);
          ClaimIsRange(lib, config.nodes[j], nodes[j], l, a);
          ClaimsMeet(lib, config.nodes[i], nodes[i], config.nodes[j], nodes[j], k, l);
        }
      }
    }
  }

  lemma FleetIsApart(lib: Library, config: TopologyConfig, nodes: seq<ValidatedNode>)
    requires Mirrors(lib, config, nodes) && NamesAreApart(config)
    ensures FleetOk(nodes, Members(config.master)) <==> AllApart(nodes) && ReachesMasters(config)
  {
    hide NoCover, NoOverlap, NoSelfOverlap, NetsApart;
    var masters := Members(config.master);
    forall i | 0 <= i < |nodes|
      ensures nodes[i].hostname == config.nodes[i].hostname && nodes[i].endpoint == config.nodes[i].wg.endpoint
      ensures NetsApart(nodes[i], nodes[i], true) <==> NoCover(nodes[i], nodes[i]) && NoSelfOverlap(nodes[i])
    {
      assert SaysTheSame(lib, config.nodes[i], nodes[i]);
      SelfApart(nodes[i]);
    }
    hide SaysTheSame;
    forall i, j | 0 <= i < |nodes| && 0 <= j < |nodes|
      ensures NetsApart(nodes[i], nodes[j], false) <==>
                nodes[i].tunnelAddress != nodes[j].tunnelAddress && NoCover(nodes[i], nodes[j]) && NoCover(nodes[j], nodes[i])
                && NoOverlap(nodes[i], nodes[j])
    {
      PairApart(nodes[i], nodes[j]);
    }
    if FleetOk(nodes, masters) {
      forall i, j | 0 <= i < |nodes| && 0 <= j < |nodes| && i != j
        ensures Compatible(nodes[i], nodes[j], masters) && Compatible(nodes[j], nodes[i], masters)
      {
        FleetPair(nodes, masters, i, j);
        FleetPair(nodes, masters, j, i);
      }
    }
    if AllApart(nodes) && ReachesMasters(config) {
      forall i, j | 0 <= i < |nodes| && 0 <= j < |nodes| && i != j ensures Compatible(nodes[i], nodes[j], masters) {
        assert NetsApart(nodes[i], nodes[j], i == j);
        assert config.nodes[i].hostname != config.nodes[j].hostname;
      }
    }
  }

  /** Validation accepts a configuration iff, as written, its fields are in order, its names are apart, no address is
      claimed twice, and every master can be reached. */
  lemma AcceptedExactly(lib: Library, config: TopologyConfig)
    ensures ValidConfig(lib, config) <==> IsAcceptable(lib, config)
  {
    hide FieldsOk, FleetOk, NodesOf, Hostname.IsValid, NodeTextOk, ClaimsAreApart, ReachesMasters, Mirrors;
    forall i | 0 <= i < |config.nodes|
      ensures NodeTextOk(lib, config.nodes[i]) <==>
                Hostname.IsValid(config.nodes[i].hostname) && FieldsOk(lib, config.nodes[i])
    {
      FieldsAreTexts(lib, config.nodes[i]);
    }
    if forall i :: 0 <= i < |config.nodes| ==> NodeTextOk(lib, config.nodes[i]) {
      var nodes := NodesOf(lib, config.nodes);
      NodesMirror(lib, config);
      if ValidConfig(lib, config) {
        NamesOfFleet(lib, config, nodes);
      }
      if NamesAreApart(config) {
        FleetIsApart(lib, config, nodes);
        ClaimsAreNets(lib, config, nodes);
        MastersListed(config);
      }
    }
  }

  lemma MastersListed(config: TopologyConfig)
    requires NamesAreApart(config)
    ensures Pairwise(config.master, (a: string, b: string) => a != b)
    ensures forall i :: 0 <= i < |config.master| ==> config.master[i] in HostNames(config)
  {
    forall i, j | 0 <= i < |config.master| && 0 <= j < |config.master| && i != j
      ensures config.master[i] != config.master[j]
    {
      if j < i {
        assert config.master[j] != config.master[i];
      }
    }
    forall i | 0 <= i < |config.master| ensures config.master[i] in HostNames(config) {
      assert config.master[i] in config.master;
    }
  }

  lemma NamesOfFleet(lib: Library, config: TopologyConfig, nodes: seq<ValidatedNode>)
    requires Mirrors(lib, config, nodes) && FleetOk(nodes, Members(config.master))
    requires Pairwise(config.master, (a: string, b: string) => a != b)
    requires forall i :: 0 <= i < |config.master| ==> config.master[i] in HostNames(config)
    ensures NamesAreApart(config)
  {
    hide FleetOk;
    FleetNamesDistinct(nodes, Members(config.master));
    forall i | 0 <= i < |nodes| ensures nodes[i].hostname == config.nodes[i].hostname {
      assert SaysTheSame(lib, config.nodes[i], nodes[i]);
    }
    hide Mirrors, SaysTheSame;
    var apart := (a: string, b: string) => a != b;
    forall i, j | 0 <= i < j < |config.master| ensures config.master[i] != config.master[j] {
      assert apart(config.master[i], config.master[j]);
    }
    forall m | m in config.master ensures exists i :: 0 <= i < |config.nodes| && config.nodes[i].hostname == m {
      var k :| 0 <= k < |config.master| && config.master[k] == m;
      assert config.master[k] in HostNames(config);
    }
  }

  // -------------------------------------------------------------------
  // The validated topology says what the configuration says
  // -------------------------------------------------------------------

  /** Every node of `nodes` is said by one of `config`, and the other way round. */
  ghost predicate SayAlike(lib: Library, config: seq<NodeConfig>, nodes: seq<ValidatedNode>) {
    && |nodes| == |config|
    && (forall i :: 0 <= i < |config| ==> IsSaid(lib, config[i], nodes))
    && forall j :: 0 <= j < |nodes| ==> Says(lib, config, nodes[j])
  }

  ghost predicate IsSaid(lib: Library, c: NodeConfig, nodes: seq<ValidatedNode>) {
    exists j :: 0 <= j < |nodes| && SaysTheSame(lib, c, nodes[j])
  }

  ghost predicate Says(lib: Library, config: seq<NodeConfig>, n: ValidatedNode) {
    exists i :: 0 <= i < |config| && SaysTheSame(lib, config[i], n)
  }

  lemma SortedSayAlike(lib: Library, config: TopologyConfig, nodes: seq<ValidatedNode>, sorted: seq<ValidatedNode>)
    requires Mirrors(lib, config, nodes) && multiset(sorted) == multiset(nodes)
    ensures SayAlike(lib, config.nodes, sorted)
  {
    hide SaysTheSame;
    SameMembers(sorted, nodes);
    forall i | 0 <= i < |config.nodes| ensures IsSaid(lib, config.nodes[i], sorted) {
      assert nodes[i] in sorted;
      var j :| 0 <= j < |sorted| && sorted[j] == nodes[i];
    }
    forall j | 0 <= j < |sorted| ensures Says(lib, config.nodes, sorted[j]) {
      assert sorted[j] in nodes;
      var i :| 0 <= i < |nodes| && nodes[i] == sorted[j];
    }
  }

  lemma SortedNames(nodes: seq<ValidatedNode>)
    requires Ascending(Names(nodes))
    ensures forall i, j :: 0 <= i < j < |nodes| ==> Less(nodes[i].hostname, nodes[j].hostname)
  {
    hide Less;
    forall i, j | 0 <= i < j < |nodes| ensures Less(nodes[i].hostname, nodes[j].hostname) {
      assert Less(Names(nodes)[i], Names(nodes)[j]);
    }
  }

  /** After validation every configured node has exactly one node of its name in the topology, which says the same, and
      there are no others; the masters are the listed ones. */
  lemma TopologyIsConfigured(lib: Library, config: TopologyConfig)
    requires ValidConfig(lib, config)
    ensures AllFieldsOk(lib, config.nodes)
    ensures var topo := TopologyOf(lib, config);
            && SayAlike(lib, config.nodes, topo.nodes)
            && (forall i, j :: 0 <= i < j < |topo.nodes| ==> Less(topo.nodes[i].hostname, topo.nodes[j].hostname))
            && (forall m :: m in topo.masters <==> m in config.master)
  {
    ValidatedIsWellFormed(lib, config);
    NodesMirror(lib, config);
    hide ValidConfig, AllFieldsOk, NodesOf, FleetOk, NodeOk, Less, Mirrors, SayAlike;
    var nodes, topo := NodesOf(lib, config.nodes), TopologyOf(lib, config);
    SortMultiset(nodes);
    hide SortByName;
    SortedSayAlike(lib, config, nodes, topo.nodes);
    SortedNames(topo.nodes);
  }
}
