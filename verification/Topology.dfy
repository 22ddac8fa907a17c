/** The fleet topology: its configuration, validation, and the edges between nodes. */
module Topology {
  import opened Outcomes
  import opened Text
  import opened Ipv4
  import opened Lib
  import opened Order
  import Chars
  import Hostname

  const MAX_NODES: nat := 4096
  const MIN_MTU: nat := 576
  const MAX_HOST_BYTES: nat := 253

  type u16 = x: nat | x < 0x1_0000 witness 0

  datatype WgConfig = WgConfig(
    tunnelAddress: string,
    listenPort: u16,
    endpoint: Option<string>,
    dns: Option<string>,
    mtu: Option<u16>,
    extraAllowedIps: seq<string>,
    persistentKeepalive: Option<u16>)

  datatype NodeConfig = NodeConfig(hostname: string, wg: WgConfig)

  datatype TopologyConfig = TopologyConfig(nodes: seq<NodeConfig>, master: seq<string>)

  datatype ValidatedNode = ValidatedNode(
    hostname: string,
    tunnelAddress: Addr,
    listenPort: u16,
    endpoint: Option<string>,
    dns: Option<string>,
    mtu: Option<u16>,
    extraAllowedIps: seq<Net>,
    persistentKeepalive: Option<u16>)

  /** Nodes in ascending order of host name. */
  datatype ValidatedTopology = ValidatedTopology(nodes: seq<ValidatedNode>, masters: set<string>)

  datatype ValidationError =
    | InvalidHostname(hostname: string)
    | DuplicateHostname(hostname: string)
    | EmptyNodes
    | TooManyNodes(count: nat)
    | UnknownMaster(hostname: string)
    | DuplicateMaster(hostname: string)
    | InvalidTunnelAddress(hostname: string)
    | DuplicateTunnelAddress(a: string, b: string)
    | InvalidListenPort(hostname: string)
    | InvalidEndpoint(hostname: string)
    | InvalidDns(hostname: string)
    | InvalidMtu(hostname: string)
    | NonCanonicalRoute(hostname: string, route: string)
    | DefaultRouteRejected(hostname: string)
    | OverlappingRoutes(a: string, b: string)
    | RouteCoversTunnelAddress(routeHost: string, node: string)
    | EdgeMissingEndpoint(a: string, b: string)

  // -------------------------------------------------------------------
  // Edges
  // -------------------------------------------------------------------

  type Edge = (string, string)

  /** The pair with the smaller name first. */
  function CanonicalPair(a: string, b: string): Edge {
    if a == b || Less(a, b) then (a, b) else (b, a)
  }

  lemma PairSymmetric(a: string, b: string)
    ensures CanonicalPair(a, b) == CanonicalPair(b, a)
  {
    LessTotal(a, b);
    if Less(a, b) {
      LessAsymmetric(a, b);
    }
  }

  /** Distinct hosts of which at least one is a master. */
  predicate Adjacent(a: string, b: string, masters: set<string>) {
    a != b && (a in masters || b in masters)
  }

  ghost function HostSet(hostnames: seq<string>): set<string> {
    set h | h in hostnames
  }

  /** The edges of a fleet: every ordered pair of distinct hosts of which at least one is a master. */
  ghost function EdgeSet(hosts: set<string>, masters: set<string>): set<Edge> {
    set a, b | a in hosts && b in hosts && Less(a, b) && (a in masters || b in masters) :: (a, b)
  }

  /** The order in which edges are visited. */
  predicate EdgeLess(e: Edge, f: Edge) {
    Less(e.0, f.0) || (e.0 == f.0 && Less(e.1, f.1))
  }

  lemma EdgeLessOrders(e: Edge, f: Edge, g: Edge)
    ensures !EdgeLess(e, e)
    ensures EdgeLess(e, f) && EdgeLess(f, g) ==> EdgeLess(e, g)
    ensures e == f || EdgeLess(e, f) || EdgeLess(f, e)
  {
    LessIrreflexive(e.0);
    LessIrreflexive(e.1);
    LessTotal(e.0, f.0);
    LessTotal(e.1, f.1);
    hide Less;
    if EdgeLess(e, f) && EdgeLess(f, g) {
      if Less(e.0, f.0) && Less(f.0, g.0) {
        LessTransitive(e.0, f.0, g.0);
      }
      if Less(e.1, f.1) && Less(f.1, g.1) {
        LessTransitive(e.1, f.1, g.1);
      }
    }
  }

  /** The edge that comes first. */
  method FirstEdge(edges: set<Edge>) returns (first: Edge)
    requires edges != {}
    ensures first in edges && forall e :: e in edges ==> !EdgeLess(e, first)
  {
    hide EdgeLess;
    first :| first in edges;
    EdgeLessOrders(first, first, first);
    var left := edges - {first};
    while left != {}
      invariant left <= edges && first in edges - left
      invariant forall e :: e in edges - left ==> !EdgeLess(e, first)
      decreases |left|
    {
      var next :| next in left;
      left := left - {next};
      EdgeLessOrders(next, next, next);
      forall e | e in edges - left ensures EdgeLess(e, next) && EdgeLess(next, first) ==> EdgeLess(e, first) {
        EdgeLessOrders(e, next, first);
      }
      if EdgeLess(next, first) {
        first := next;
      }
    }
  }

  lemma EdgeMember(hosts: set<string>, masters: set<string>, a: string, b: string)
    requires a in hosts && b in hosts && Adjacent(a, b, masters)
    ensures CanonicalPair(a, b) in EdgeSet(hosts, masters)
  {
    LessTotal(a, b);
  }

  lemma EdgeEnds(hosts: set<string>, masters: set<string>, e: Edge)
    requires e in EdgeSet(hosts, masters)
    ensures e.0 in hosts && e.1 in hosts && Adjacent(e.0, e.1, masters) && CanonicalPair(e.0, e.1) == e
  {
    LessIrreflexive(e.0);
  }

  method ComputeEdges(hostnames: seq<string>, masters: set<string>) returns (edges: set<Edge>)
    requires forall i, j :: 0 <= i < j < |hostnames| ==> hostnames[i] != hostnames[j]
    ensures edges == EdgeSet(HostSet(hostnames), masters)
  {
    var masterList, spokeList := SplitHosts(hostnames, masters);
    edges := MeshMasters(masterList);
    edges := JoinSpokes(edges, masterList, spokeList);
    AllPairs(hostnames, masters, masterList, spokeList);
  }

  method SplitHosts(hostnames: seq<string>, masters: set<string>)
    returns (masterList: seq<string>, spokeList: seq<string>)
    requires forall i, j :: 0 <= i < j < |hostnames| ==> hostnames[i] != hostnames[j]
    ensures forall h :: h in masterList <==> h in hostnames && h in masters
    ensures forall h :: h in spokeList <==> h in hostnames && h !in masters
    ensures forall k, l :: 0 <= k < l < |masterList| ==> masterList[k] != masterList[l]
  {
    masterList, spokeList := [], [];
    for i := 0 to |hostnames|
      invariant forall h :: h in masterList <==> h in hostnames[..i] && h in masters
      invariant forall h :: h in spokeList <==> h in hostnames[..i] && h !in masters
      invariant forall k, l :: 0 <= k < l < |masterList| ==> masterList[k] != masterList[l]
    {
      assert hostnames[..i + 1] == hostnames[..i] + [hostnames[i]];
      assert hostnames[i] !in hostnames[..i];
      if hostnames[i] in masters {
        masterList := masterList + [hostnames[i]];
      } else {
        spokeList := spokeList + [hostnames[i]];
      }
    }
    assert hostnames[..|hostnames|] == hostnames;
  }

  /** Every master is joined to the masters listed after it. */
  method MeshMasters(list: seq<string>) returns (edges: set<Edge>)
    ensures edges == PairsAmong(list, |list|)
  {
    edges := {};
    for i := 0 to |list|
      invariant edges == PairsAmong(list, i)
    {
      for k := i + 1 to |list|
        invariant edges == PairsAmong(list, i) + PairsWith(list[i], list[i + 1..k])
      {
        PairsWithAppend(list[i], list[i + 1..k], list[k]);
        assert list[i + 1..k + 1] == list[i + 1..k] + [list[k]];
        edges := edges + {CanonicalPair(list[i], list[k])};
      }
      assert list[i + 1..|list|] == list[i + 1..];
      NextMaster(list, i);
    }
  }

  /** Every master is joined to every spoke. */
  method JoinSpokes(mesh: set<Edge>, masterList: seq<string>, spokeList: seq<string>) returns (edges: set<Edge>)
    ensures edges == mesh + PairsAcross(masterList, spokeList)
  {
    edges := mesh;
    for i := 0 to |masterList|
      invariant edges == mesh + PairsAcross(masterList[..i], spokeList)
    {
      ghost var before := edges;
      for k := 0 to |spokeList|
        invariant edges == before + PairsWith(masterList[i], spokeList[..k])
      {
        PairsWithAppend(masterList[i], spokeList[..k], spokeList[k]);
        assert spokeList[..k + 1] == spokeList[..k] + [spokeList[k]];
        edges := edges + {CanonicalPair(masterList[i], spokeList[k])};
      }
      assert spokeList[..|spokeList|] == spokeList;
      assert masterList[..i + 1] == masterList[..i] + [masterList[i]];
      PairsAcrossAppend(masterList[..i], masterList[i], spokeList);
    }
    assert masterList[..|masterList|] == masterList;
  }

  ghost function PairsWith(a: string, others: seq<string>): set<Edge> {
    set b | b in others :: CanonicalPair(a, b)
  }

  /** Pairs of list members of which the first comes before position `n`. */
  ghost function PairsAmong(list: seq<string>, n: nat): set<Edge>
    requires n <= |list|
  {
    set i, k | 0 <= i < n && i < k < |list| :: CanonicalPair(list[i], list[k])
  }

  ghost function PairsAcross(a: seq<string>, b: seq<string>): set<Edge> {
    set x, y | x in a && y in b :: CanonicalPair(x, y)
  }

  lemma PairsWithAppend(a: string, others: seq<string>, b: string)
    ensures PairsWith(a, others + [b]) == PairsWith(a, others) + {CanonicalPair(a, b)}
  {
    hide CanonicalPair;
  }

  lemma PairsAcrossAppend(list: seq<string>, m: string, others: seq<string>)
    ensures PairsAcross(list + [m], others) == PairsAcross(list, others) + PairsWith(m, others)
  {
    hide CanonicalPair;
  }

  lemma NextMaster(list: seq<string>, i: nat)
    requires i < |list|
    ensures PairsAmong(list, i) + PairsWith(list[i], list[i + 1..]) == PairsAmong(list, i + 1)
  {
    hide CanonicalPair;
    var before, added, all := PairsAmong(list, i), PairsWith(list[i], list[i + 1..]), PairsAmong(list, i + 1);
    forall e | e in all ensures e in before + added {
      var p, k :| 0 <= p < i + 1 && p < k < |list| && e == CanonicalPair(list[p], list[k]);
      if p == i {
        assert list[k] == list[i + 1..][k - i - 1];
      }
    }
    forall e | e in added ensures e in all {
      var b :| b in list[i + 1..] && e == CanonicalPair(list[i], b);
      var k :| 0 <= k < |list[i + 1..]| && list[i + 1..][k] == b;
      assert list[i + 1 + k] == b;
    }
  }

  lemma AllPairs(hostnames: seq<string>, masters: set<string>, masterList: seq<string>, spokeList: seq<string>)
    requires forall h :: h in masterList <==> h in hostnames && h in masters
    requires forall h :: h in spokeList <==> h in hostnames && h !in masters
    requires forall k, l :: 0 <= k < l < |masterList| ==> masterList[k] != masterList[l]
    ensures PairsAmong(masterList, |masterList|) + PairsAcross(masterList, spokeList)
         == EdgeSet(HostSet(hostnames), masters)
  {
    var edges := EdgeSet(HostSet(hostnames), masters);
    forall e | e in edges ensures e in PairsAmong(masterList, |masterList|) + PairsAcross(masterList, spokeList) {
      EdgeListed(hostnames, masters, masterList, spokeList, e);
    }
    forall e | e in PairsAmong(masterList, |masterList|) ensures e in edges {
      var i, k :| 0 <= i < k < |masterList| && e == CanonicalPair(masterList[i], masterList[k]);
      assert masterList[i] in masterList && masterList[k] in masterList;
      EdgeMember(HostSet(hostnames), masters, masterList[i], masterList[k]);
    }
    forall e | e in PairsAcross(masterList, spokeList) ensures e in edges {
      var x, y :| x in masterList && y in spokeList && e == CanonicalPair(x, y);
      EdgeMember(HostSet(hostnames), masters, x, y);
    }
  }

  lemma EdgeListed(hostnames: seq<string>, masters: set<string>, masterList: seq<string>, spokeList: seq<string>,
                   e: Edge)
    requires forall h :: h in masterList <==> h in hostnames && h in masters
    requires forall h :: h in spokeList <==> h in hostnames && h !in masters
    requires e in EdgeSet(HostSet(hostnames), masters)
    ensures e in PairsAmong(masterList, |masterList|) + PairsAcross(masterList, spokeList)
  {
    EdgeEnds(HostSet(hostnames), masters, e);
    PairSymmetric(e.0, e.1);
    if e.0 in masters && e.1 in masters {
      var i :| 0 <= i < |masterList| && masterList[i] == e.0;
      var k :| 0 <= k < |masterList| && masterList[k] == e.1;
      if i < k {
        assert e == CanonicalPair(masterList[i], masterList[k]);
      } else {
        assert e == CanonicalPair(masterList[k], masterList[i]);
      }
    } else if e.0 in masters {
      assert e == CanonicalPair(e.0, e.1) && e.1 in spokeList;
    } else {
      assert e == CanonicalPair(e.1, e.0) && e.0 in spokeList;
    }
  }

  // -------------------------------------------------------------------
  // The number of edges
  // -------------------------------------------------------------------

  lemma {:induction false} PairsCount(h: string, others: set<string>)
    requires h !in others
    ensures |set x | x in others :: CanonicalPair(h, x)| == |others|
  {
    var pairs := set x | x in others :: CanonicalPair(h, x);
    if others == {} {
      assert pairs == {};
    } else {
      var y :| y in others;
      var fewer := set x | x in others - {y} :: CanonicalPair(h, x);
      PairsCount(h, others - {y});
      assert pairs == fewer + {CanonicalPair(h, y)};
      assert CanonicalPair(h, y) !in fewer;
    }
  }

  /** Adding a host adds one edge per other host if it is a master, otherwise one per master. */
  lemma EdgesOfNewHost(h: string, hosts: set<string>, masters: set<string>)
    requires h !in hosts
    ensures |EdgeSet(hosts + {h}, masters)|
         == |EdgeSet(hosts, masters)| + (if h in masters then |hosts| else |hosts * masters|)
  {
    var reach := if h in masters then hosts else hosts * masters;
    var added := set x | x in reach :: CanonicalPair(h, x);
    PairsCount(h, reach);
    var kept, all := EdgeSet(hosts, masters), EdgeSet(hosts + {h}, masters);
    forall e | e in all ensures e in kept + added {
      EdgeEnds(hosts + {h}, masters, e);
      PairSymmetric(e.0, e.1);
      if e.0 == h {
        assert e == CanonicalPair(h, e.1) && e.1 in reach;
      } else if e.1 == h {
        assert e == CanonicalPair(h, e.0) && e.0 in reach;
      }
    }
    forall e | e in added ensures e in all && e !in kept {
      var x :| x in reach && e == CanonicalPair(h, x);
      EdgeMember(hosts + {h}, masters, h, x);
    }
    assert all == kept + added;
  }

  /** With m masters and s other hosts there are m(m-1)/2 + m*s edges. */
  lemma {:induction false} EdgeCount(hosts: set<string>, masters: set<string>)
    ensures var m, s := |hosts * masters|, |hosts - masters|;
            2 * |EdgeSet(hosts, masters)| == m * (m - 1) + 2 * (m * s)
    decreases hosts
  {
    hide EdgeSet;
    if hosts == {} {
      NoHostsNoEdges(masters);
    } else {
      var h :| h in hosts;
      var rest := hosts - {h};
      EdgeCount(rest, masters);
      EdgesOfNewHost(h, rest, masters);
      assert rest + {h} == hosts;
      SplitCount(rest, masters);
      SplitStep(h, rest, masters);
      CountStep(|rest * masters|, |rest - masters|);
    }
  }

  lemma NoHostsNoEdges(masters: set<string>)
    ensures EdgeSet({}, masters) == {}
  {
  }

  lemma SplitCount(hosts: set<string>, masters: set<string>)
    ensures |hosts| == |hosts * masters| + |hosts - masters|
  {
    assert hosts == (hosts * masters) + (hosts - masters);
  }

  lemma SplitStep(h: string, rest: set<string>, masters: set<string>)
    requires h !in rest
    ensures |(rest + {h}) * masters| == |rest * masters| + (if h in masters then 1 else 0)
    ensures |(rest + {h}) - masters| == |rest - masters| + (if h in masters then 0 else 1)
  {
    if h in masters {
      assert (rest + {h}) * masters == rest * masters + {h} && (rest + {h}) - masters == rest - masters;
    } else {
      assert (rest + {h}) * masters == rest * masters && (rest + {h}) - masters == (rest - masters) + {h};
    }
  }

  lemma CountStep(m: nat, s: nat)
    ensures (m + 1) * ((m + 1) - 1) + 2 * ((m + 1) * s) == m * (m - 1) + 2 * (m * s) + 2 * (m + s)
    ensures m * (m - 1) + 2 * (m * (s + 1)) == m * (m - 1) + 2 * (m * s) + 2 * m
  {
  }

  // -------------------------------------------------------------------
  // Field checks
  // -------------------------------------------------------------------

  function ParseCanonicalNet(s: string): (r: Option<Net>)
    ensures r.Some? ==> Ipv4.IsCanonical(r.value)
  {
    var net := ParseNet(s);
    if net.Some? && Ipv4.IsCanonical(net.value) then net else None
  }

  /** `host:port` or `[ipv6]:port`; the host part and the port text. */
  function EndpointParts(lib: Library, s: string): Option<(string, string)> {
    if |s| > 0 && s[0] == '[' then
      match SplitOnce(s[1..], ']')
      case None => None
      case Some((addr, after)) =>
        if !lib.isIpv6(addr) || |after| == 0 || after[0] != ':' then None else Some((addr, after[1..]))
    else SplitLast(s, ':')
  }

  predicate EndpointOk(lib: Library, s: string) {
    match EndpointParts(lib, s)
    case None => false
    case Some((host, port)) =>
      && 0 < Utf8Len(host) <= MAX_HOST_BYTES
      && (forall i :: 0 <= i < |host| ==> !Chars.IsWhitespace(host[i]) && !Chars.IsControl(host[i]))
      && ParseU16(port).Some? && ParseU16(port).value != 0
  }

  /** A name or address of at most 253 bytes without blanks, and a port. */
  predicate HostAndPort(host: string, port: string) {
    && 1 <= Utf8Len(host) <= 253
    && (forall c :: c in host ==> !Chars.IsWhitespace(c) && !Chars.IsControl(c))
    && ParseU16(port).Some? && ParseU16(port).value > 0
  }

  /** A host, a colon and a port without colons. */
  ghost predicate IsPlainEndpoint(s: string) {
    exists host, port :: s == host + ":" + port && Lacks(port, ':') && HostAndPort(host, port)
  }

  /** An IPv6 address in brackets, a colon and a port. */
  ghost predicate IsBracketed(lib: Library, s: string) {
    exists addr, port :: s == "[" + addr + "]:" + port && Lacks(addr, ']') && lib.isIpv6(addr) && HostAndPort(addr, port)
  }

  /** The accepted endpoints. */
  lemma EndpointExactly(lib: Library, s: string)
    ensures EndpointOk(lib, s) <==> if |s| > 0 && s[0] == '[' then IsBracketed(lib, s) else IsPlainEndpoint(s)
  {
    if EndpointOk(lib, s) {
      EndpointText(lib, s);
      EndpointSplit(lib, s);
      hide EndpointParts, ParseU16, Utf8Len;
      var (host, port) := EndpointParts(lib, s).value;
      assert HostAndPort(host, port);
      assert "" + host + ":" + port == host + ":" + port;
    }
    if |s| > 0 && s[0] == '[' {
      BracketedIsOk(lib, s);
    } else {
      PlainIsOk(lib, s);
    }
  }

  lemma PlainIsOk(lib: Library, s: string)
    requires |s| > 0 ==> s[0] != '['
    ensures IsPlainEndpoint(s) ==> EndpointOk(lib, s)
  {
    hide ParseU16, Utf8Len, SplitLast;
    if host, port :| s == host + ":" + port && Lacks(port, ':') && HostAndPort(host, port) {
      SplitLastAt(host, ':', port);
    }
  }

  lemma BracketedIsOk(lib: Library, s: string)
    ensures IsBracketed(lib, s) ==> EndpointOk(lib, s)
  {
    hide ParseU16, Utf8Len, SplitOnce;
    if addr, port :| s == "[" + addr + "]:" + port && Lacks(addr, ']') && lib.isIpv6(addr) && HostAndPort(addr, port) {
      SplitOnceAt(addr, ']', ":" + port);
      assert s[1..] == addr + [']'] + (":" + port);
      assert (":" + port)[1..] == port;
    }
  }

  lemma EndpointSplit(lib: Library, s: string)
    requires EndpointParts(lib, s).Some?
    ensures var (host, port) := EndpointParts(lib, s).value;
            if |s| > 0 && s[0] == '[' then Lacks(host, ']') && lib.isIpv6(host) else Lacks(port, ':')
  {
    if |s| > 0 && s[0] == '[' {
      SplitOnceParts(s[1..], ']');
    } else {
      SplitLastParts(s, ':');
    }
  }

  /** An accepted endpoint has no blanks or control characters anywhere. */
  lemma EndpointIsPlain(lib: Library, s: string)
    requires EndpointOk(lib, s)
    ensures Plain(s)
  {
    var parts := EndpointParts(lib, s).value;
    EndpointText(lib, s);
    hide EndpointParts, Plain, ParseU16;
    ParsedU16Chars(parts.1);
    if |s| > 0 && s[0] == '[' {
      PlainJoin("[", parts.0, "]:", parts.1);
    } else {
      PlainJoin("", parts.0, ":", parts.1);
    }
  }

  lemma EndpointText(lib: Library, s: string)
    requires EndpointParts(lib, s).Some?
    ensures var (host, port) := EndpointParts(lib, s).value;
            s == if |s| > 0 && s[0] == '[' then "[" + host + "]:" + port else "" + host + ":" + port
  {
    if |s| > 0 && s[0] == '[' {
      SplitOnceParts(s[1..], ']');
      var (addr, after) := SplitOnce(s[1..], ']').value;
      hide SplitOnce;
      assert after == ":" + after[1..];
      assert s == "[" + s[1..];
    } else {
      SplitLastParts(s, ':');
    }
  }

  lemma PlainJoin(a: string, host: string, b: string, port: string)
    requires forall i :: 0 <= i < |host| ==> !Chars.IsWhitespace(host[i]) && !Chars.IsControl(host[i])
    requires Plain(port) && (a == "" || a == "[") && (b == ":" || b == "]:")
    ensures Plain(a + host + b + port)
  {
  }

  predicate RouteOk(r: string) {
    ParseCanonicalNet(r).Some? && ParseCanonicalNet(r).value.prefix != 0
  }

  predicate TunnelOk(s: string) {
    ParseCanonicalNet(s).Some? && ParseCanonicalNet(s).value.prefix == 32
  }

  /** All checks that look at one node only. */
  predicate FieldsOk(lib: Library, n: NodeConfig) {
    && TunnelOk(n.wg.tunnelAddress)
    && n.wg.listenPort != 0
    && (n.wg.endpoint.Some? ==> EndpointOk(lib, n.wg.endpoint.value))
    && (n.wg.dns.Some? ==> lib.parseIp(n.wg.dns.value).Some?)
    && (n.wg.mtu.Some? ==> n.wg.mtu.value >= MIN_MTU)
    && forall i :: 0 <= i < |n.wg.extraAllowedIps| ==> RouteOk(n.wg.extraAllowedIps[i])
  }

  function RouteOf(r: string): Net
    requires RouteOk(r)
  {
    ParseCanonicalNet(r).value
  }

  function Routes(texts: seq<string>): (nets: seq<Net>)
    requires forall i :: 0 <= i < |texts| ==> RouteOk(texts[i])
    ensures |nets| == |texts| && forall i :: 0 <= i < |texts| ==> nets[i] == RouteOf(texts[i])
  {
    seq(|texts|, i requires 0 <= i < |texts| => RouteOf(texts[i]))
  }

  function NodeOf(lib: Library, n: NodeConfig): ValidatedNode
    requires FieldsOk(lib, n)
  {
    ValidatedNode(
      n.hostname,
      ParseCanonicalNet(n.wg.tunnelAddress).value.addr,
      n.wg.listenPort,
      n.wg.endpoint,
      if n.wg.dns.Some? then lib.parseIp(n.wg.dns.value) else None,
      n.wg.mtu,
      Routes(n.wg.extraAllowedIps),
      n.wg.persistentKeepalive)
  }

  function NodesOf(lib: Library, config: seq<NodeConfig>): (nodes: seq<ValidatedNode>)
    requires forall i :: 0 <= i < |config| ==> FieldsOk(lib, config[i])
    ensures |nodes| == |config| && forall i :: 0 <= i < |config| ==> nodes[i] == NodeOf(lib, config[i])
  {
    seq(|config|, i requires 0 <= i < |config| => NodeOf(lib, config[i]))
  }

  // -------------------------------------------------------------------
  // Fleet checks
  // -------------------------------------------------------------------

  /** No route of `n` covers the tunnel address of `m`. */
  ghost predicate NoCover(n: ValidatedNode, m: ValidatedNode) {
    forall i :: 0 <= i < |n.extraAllowedIps| ==> !Contains(RangeOf(n.extraAllowedIps[i]), m.tunnelAddress)
  }

  ghost predicate NoOverlap(n: ValidatedNode, m: ValidatedNode) {
    forall i, k :: 0 <= i < |n.extraAllowedIps| && 0 <= k < |m.extraAllowedIps| ==>
      !Overlap(RangeOf(n.extraAllowedIps[i]), RangeOf(m.extraAllowedIps[k]))
  }

  ghost predicate NoSelfOverlap(n: ValidatedNode) {
    forall i, k :: 0 <= i < k < |n.extraAllowedIps| ==>
      !Overlap(RangeOf(n.extraAllowedIps[i]), RangeOf(n.extraAllowedIps[k]))
  }

  /** What two different nodes of a valid fleet have to respect. */
  ghost predicate Compatible(n: ValidatedNode, m: ValidatedNode, masters: set<string>) {
    && n.hostname != m.hostname
    && n.tunnelAddress != m.tunnelAddress
    && NoCover(n, m) && NoOverlap(n, m)
    && (Adjacent(n.hostname, m.hostname, masters) ==> n.endpoint.Some? || m.endpoint.Some?)
  }

  ghost predicate FleetOk(nodes: seq<ValidatedNode>, masters: set<string>) {
    && (forall i :: 0 <= i < |nodes| ==> NoCover(nodes[i], nodes[i]) && NoSelfOverlap(nodes[i]))
    && Pairwise(nodes, (n: ValidatedNode, m: ValidatedNode) => Compatible(n, m, masters))
  }

  ghost function Members(s: seq<string>): set<string> {
    set x | x in s
  }

  ghost function HostNames(config: TopologyConfig): set<string> {
    set i | 0 <= i < |config.nodes| :: config.nodes[i].hostname
  }

  /** The configurations that validation accepts, without reference to any order. */
  ghost predicate ValidConfig(lib: Library, config: TopologyConfig) {
    && 0 < |config.nodes| <= MAX_NODES
    && (forall i :: 0 <= i < |config.nodes| ==>
          Hostname.IsValid(config.nodes[i].hostname) && FieldsOk(lib, config.nodes[i]))
    && Pairwise(config.master, (a: string, b: string) => a != b)
    && (forall i :: 0 <= i < |config.master| ==> config.master[i] in HostNames(config))
    && FleetOk(NodesOf(lib, config.nodes), Members(config.master))
  }
}
