/** Resolving keys: which nodes and edges keep the key material of the published files and which get new. */
module KeyResolution {
  import opened Outcomes
  import opened Lib
  import opened Order
  import opened Topology
  import opened Validation
  import opened WgQuick
  import opened Render
  import opened RenderTheorems

  datatype RotateSelection = RotateNone | RotateAll | RotateNamed(hosts: set<string>)

  predicate IsRotated(rotate: RotateSelection, h: string) {
    match rotate
    case RotateNone => false
    case RotateAll => true
    case RotateNamed(hosts) => h in hosts
  }

  /** The random source of one run: the private key and preshared key it would generate. */
  datatype Entropy = Entropy(keyOf: string -> string, pskOf: Edge -> string)

  datatype ResolveError =
    | BadStoredKey(hostname: string)
    | OneSidedEdge(a: string, b: string, only: string)
    | ConflictingPsk(a: string, b: string)

  datatype Resolution = Resolution(keys: ResolvedKeys, reused: seq<string>, freshlyKeyed: seq<string>)

  type OldConfigs = map<string, ParsedConfig>

  /** The node gets a new key pair: it is rotated or nothing is published for it. */
  predicate IsFresh(stored: OldConfigs, rotate: RotateSelection, h: string) {
    IsRotated(rotate, h) || h !in stored
  }

  function KeyPair(lib: Library, privateKey: string): (string, string) {
    (privateKey, lib.publicOf(privateKey))
  }

  function NodeKey(lib: Library, stored: OldConfigs, rotate: RotateSelection, entropy: Entropy, h: string)
    : Result<(string, string), ResolveError>
  {
    if IsFresh(stored, rotate, h) then Ok(KeyPair(lib, entropy.keyOf(h)))
    else if !IsKey(lib, stored[h].interface.privateKey) then Err(BadStoredKey(h))
    else Ok(KeyPair(lib, Canonical(stored[h].interface.privateKey)))
  }

  /** The preshared key recorded for the first peer with this public key. */
  function Record(peers: seq<ParsedPeer>, publicKey: string): Option<string> {
    if |peers| == 0 then None
    else if peers[0].publicKey == publicKey then Some(peers[0].presharedKey)
    else Record(peers[1..], publicKey)
  }

  function RecordIn(stored: OldConfigs, h: string, publicKey: string): Option<string> {
    if h in stored then Record(stored[h].peers, publicKey) else None
  }

  /** The preshared key of an edge between nodes with these public keys. */
  function EdgePsk(stored: OldConfigs, rotate: RotateSelection, entropy: Entropy, e: Edge, aPub: string, bPub: string)
    : Result<string, ResolveError>
  {
    if IsFresh(stored, rotate, e.0) || IsFresh(stored, rotate, e.1) then Ok(entropy.pskOf(e))
    else
      match (RecordIn(stored, e.0, bPub), RecordIn(stored, e.1, aPub))
      case (Some(pa), Some(pb)) => if pa == pb then Ok(pa) else Err(ConflictingPsk(e.0, e.1))
      case (Some(_), None) => Err(OneSidedEdge(e.0, e.1, e.0))
      case (None, Some(_)) => Err(OneSidedEdge(e.0, e.1, e.1))
      case (None, None) => Ok(entropy.pskOf(e))
  }

  function WithFreshness(hosts: seq<string>, stored: OldConfigs, rotate: RotateSelection, isFresh: bool): seq<string> {
    if |hosts| == 0 then []
    else
      WithFreshness(hosts[..|hosts| - 1], stored, rotate, isFresh)
      + (if IsFresh(stored, rotate, hosts[|hosts| - 1]) == isFresh then [hosts[|hosts| - 1]] else [])
  }

  /** What `nodeKeys` has to be. */
  ghost predicate NodesResolved(lib: Library, hosts: seq<string>, stored: OldConfigs, rotate: RotateSelection,
                                entropy: Entropy, nodeKeys: map<string, (string, string)>)
  {
    && (forall h :: h in nodeKeys <==> h in hosts)
    && forall h :: h in hosts ==> NodeKey(lib, stored, rotate, entropy, h) == Ok(nodeKeys[h])
  }

  ghost predicate EdgesCovered(edges: set<Edge>, nodeKeys: map<string, (string, string)>) {
    forall e :: e in edges ==> e.0 in nodeKeys && e.1 in nodeKeys
  }

  function EdgeResult(stored: OldConfigs, rotate: RotateSelection, entropy: Entropy, nodeKeys: map<string, (string, string)>,
                      e: Edge): Result<string, ResolveError>
    requires e.0 in nodeKeys && e.1 in nodeKeys
  {
    EdgePsk(stored, rotate, entropy, e, nodeKeys[e.0].1, nodeKeys[e.1].1)
  }

  /** What `edgePsks` has to be. */
  ghost predicate EdgesResolved(edges: set<Edge>, stored: OldConfigs, rotate: RotateSelection, entropy: Entropy,
                                nodeKeys: map<string, (string, string)>, edgePsks: map<Edge, string>)
  {
    && EdgesCovered(edges, nodeKeys)
    && (forall e :: e in edgePsks <==> e in edges)
    && forall e :: e in edges ==> EdgeResult(stored, rotate, entropy, nodeKeys, e) == Ok(edgePsks[e])
  }

  /** The keys that resolution has to produce. */
  ghost predicate ResolvesTo(lib: Library, topo: ValidatedTopology, stored: OldConfigs, rotate: RotateSelection,
                             entropy: Entropy, keys: ResolvedKeys)
  {
    && NodesResolved(lib, Names(topo.nodes), stored, rotate, entropy, keys.nodeKeys)
    && EdgesResolved(Edges(topo), stored, rotate, entropy, keys.nodeKeys, keys.edgePsks)
  }

  /** Node `i` is the first whose stored key is bad. */
  ghost predicate NodeFails(lib: Library, hosts: seq<string>, stored: OldConfigs, rotate: RotateSelection, entropy: Entropy,
                            i: nat, error: ResolveError)
  {
    && i < |hosts| && NodeKey(lib, stored, rotate, entropy, hosts[i]) == Err(error)
    && forall k :: 0 <= k < i ==> NodeKey(lib, stored, rotate, entropy, hosts[k]).Ok?
  }

  /** Edge `e` is the first that does not resolve. */
  ghost predicate EdgeFails(edges: set<Edge>, stored: OldConfigs, rotate: RotateSelection, entropy: Entropy,
                            nodeKeys: map<string, (string, string)>, e: Edge, error: ResolveError)
    requires EdgesCovered(edges, nodeKeys)
  {
    && e in edges && EdgeResult(stored, rotate, entropy, nodeKeys, e) == Err(error)
    && forall f :: f in edges && EdgeLess(f, e) ==> EdgeResult(stored, rotate, entropy, nodeKeys, f).Ok?
  }

  /** The error is that of the first bad node or, if all nodes resolve, of the first bad edge. */
  ghost predicate Justified(lib: Library, topo: ValidatedTopology, stored: OldConfigs, rotate: RotateSelection,
                            entropy: Entropy, error: ResolveError)
  {
    || (exists i :: NodeFails(lib, Names(topo.nodes), stored, rotate, entropy, i, error))
    || (exists e, nodeKeys :: NodesResolved(lib, Names(topo.nodes), stored, rotate, entropy, nodeKeys)
          && EdgesCovered(Edges(topo), nodeKeys)
          && EdgeFails(Edges(topo), stored, rotate, entropy, nodeKeys, e, error))
  }

  lemma FreshnessAppend(hosts: seq<string>, i: nat, stored: OldConfigs, rotate: RotateSelection, isFresh: bool)
    requires i < |hosts|
    ensures WithFreshness(hosts[..i + 1], stored, rotate, isFresh)
         == WithFreshness(hosts[..i], stored, rotate, isFresh) + (if IsFresh(stored, rotate, hosts[i]) == isFresh then [hosts[i]] else [])
  {
    assert hosts[..i + 1][..i] == hosts[..i];
  }

  method ResolveNodeKeys(lib: Library, hosts: seq<string>, stored: OldConfigs, rotate: RotateSelection, entropy: Entropy)
    returns (r: Result<map<string, (string, string)>, ResolveError>, reused: seq<string>, freshlyKeyed: seq<string>)
    ensures r.Ok? ==> NodesResolved(lib, hosts, stored, rotate, entropy, r.value)
    ensures r.Ok? ==> reused == WithFreshness(hosts, stored, rotate, false)
                      && freshlyKeyed == WithFreshness(hosts, stored, rotate, true)
    ensures r.Err? ==> exists i :: NodeFails(lib, hosts, stored, rotate, entropy, i, r.error)
  {
    hide NodesResolved, NodeKey, WithFreshness, KeyPair, IsRotated;
    var keys: map<string, (string, string)> := map[];
    reused, freshlyKeyed := [], [];
    NoneResolved(lib, stored, rotate, entropy);
    for i := 0 to |hosts|
      invariant NodesResolved(lib, hosts[..i], stored, rotate, entropy, keys)
      invariant reused == WithFreshness(hosts[..i], stored, rotate, false)
      invariant freshlyKeyed == WithFreshness(hosts[..i], stored, rotate, true)
    {
      var h := hosts[i];
      var key := NodeKeyFor(lib, stored, rotate, entropy, h);
      if key.Err? {
        ResolvedPrefix(lib, hosts, i, stored, rotate, entropy, keys);
        assert NodeFails(lib, hosts, stored, rotate, entropy, i, key.error);
        return Err(key.error), reused, freshlyKeyed;
      }
      OneMoreResolved(lib, hosts[..i], h, stored, rotate, entropy, keys, key.value);
      assert hosts[..i + 1] == hosts[..i] + [h];
      FreshnessAppend(hosts, i, stored, rotate, false);
      FreshnessAppend(hosts, i, stored, rotate, true);
      keys := keys[h := key.value];
      if IsFresh(stored, rotate, h) {
        freshlyKeyed := freshlyKeyed + [h];
      } else {
        reused := reused + [h];
      }
    }
    assert hosts[..|hosts|] == hosts;
    r := Ok(keys);
  }

  method NodeKeyFor(lib: Library, stored: OldConfigs, rotate: RotateSelection, entropy: Entropy, h: string)
    returns (r: Result<(string, string), ResolveError>)
    ensures r == NodeKey(lib, stored, rotate, entropy, h)
  {
    hide IsKey, Canonical;
    if IsRotated(rotate, h) || h !in stored {
      r := Ok(KeyPair(lib, entropy.keyOf(h)));
    } else {
      var privateKey := stored[h].interface.privateKey;
      r := if IsKey(lib, privateKey) then Ok(KeyPair(lib, Canonical(privateKey))) else Err(BadStoredKey(h));
    }
  }

  lemma NoneResolved(lib: Library, stored: OldConfigs, rotate: RotateSelection, entropy: Entropy)
    ensures NodesResolved(lib, [], stored, rotate, entropy, map[])
    ensures WithFreshness([], stored, rotate, true) == [] == WithFreshness([], stored, rotate, false)
  {
  }

  lemma ResolvedPrefix(lib: Library, hosts: seq<string>, i: nat, stored: OldConfigs, rotate: RotateSelection,
                       entropy: Entropy, keys: map<string, (string, string)>)
    requires i <= |hosts| && NodesResolved(lib, hosts[..i], stored, rotate, entropy, keys)
    ensures forall k :: 0 <= k < i ==> NodeKey(lib, stored, rotate, entropy, hosts[k]).Ok?
  {
    hide NodeKey;
    assert forall k :: 0 <= k < i ==> hosts[..i][k] in hosts[..i];
  }

  lemma OneMoreResolved(lib: Library, hosts: seq<string>, h: string, stored: OldConfigs, rotate: RotateSelection,
                        entropy: Entropy, keys: map<string, (string, string)>, key: (string, string))
    requires NodesResolved(lib, hosts, stored, rotate, entropy, keys)
    requires NodeKey(lib, stored, rotate, entropy, h) == Ok(key)
    ensures NodesResolved(lib, hosts + [h], stored, rotate, entropy, keys[h := key])
  {
    hide NodeKey;
  }

  /** The loop of `find`: the first peer with the key. */
  method FindRecord(stored: OldConfigs, h: string, publicKey: string) returns (record: Option<string>)
    ensures record == RecordIn(stored, h, publicKey)
  {
    if h !in stored {
      return None;
    }
    var peers := stored[h].peers;
    for i := 0 to |peers|
      invariant Record(peers, publicKey) == Record(peers[i..], publicKey)
    {
      assert peers[i..][1..] == peers[i + 1..];
      if peers[i].publicKey == publicKey {
        return Some(peers[i].presharedKey);
      }
    }
    record := None;
  }

  method ResolveEdge(stored: OldConfigs, rotate: RotateSelection, entropy: Entropy, nodeKeys: map<string, (string, string)>,
                     e: Edge)
    returns (r: Result<string, ResolveError>)
    requires e.0 in nodeKeys && e.1 in nodeKeys
    ensures r == EdgeResult(stored, rotate, entropy, nodeKeys, e)
  {
    hide Record, IsRotated;
    if IsFresh(stored, rotate, e.0) || IsFresh(stored, rotate, e.1) {
      return Ok(entropy.pskOf(e));
    }
    var a := FindRecord(stored, e.0, nodeKeys[e.1].1);
    var b := FindRecord(stored, e.1, nodeKeys[e.0].1);
    if a.Some? && b.Some? {
      r := if a.value == b.value then Ok(a.value) else Err(ConflictingPsk(e.0, e.1));
    } else if a.Some? {
      r := Err(OneSidedEdge(e.0, e.1, e.0));
    } else if b.Some? {
      r := Err(OneSidedEdge(e.0, e.1, e.1));
    } else {
      r := Ok(entropy.pskOf(e));
    }
  }

  lemma NoEdges(stored: OldConfigs, rotate: RotateSelection, entropy: Entropy, nodeKeys: map<string, (string, string)>)
    ensures EdgesResolved({}, stored, rotate, entropy, nodeKeys, map[])
  {
  }

  lemma OneMoreEdge(edges: set<Edge>, left: set<Edge>, stored: OldConfigs, rotate: RotateSelection, entropy: Entropy,
                    nodeKeys: map<string, (string, string)>, psks: map<Edge, string>, e: Edge, psk: string)
    requires EdgesCovered(edges, nodeKeys) && EdgesResolved(edges - left, stored, rotate, entropy, nodeKeys, psks)
    requires left <= edges && e in left && EdgeResult(stored, rotate, entropy, nodeKeys, e) == Ok(psk)
    ensures EdgesResolved(edges - (left - {e}), stored, rotate, entropy, nodeKeys, psks[e := psk])
  {
    hide EdgeResult;
  }

  /** The first of the edges left is the first to fail. */
  lemma FirstOfLeft(edges: set<Edge>, left: set<Edge>, stored: OldConfigs, rotate: RotateSelection, entropy: Entropy,
                    nodeKeys: map<string, (string, string)>, psks: map<Edge, string>, e: Edge, error: ResolveError)
    requires EdgesCovered(edges, nodeKeys) && EdgesResolved(edges - left, stored, rotate, entropy, nodeKeys, psks)
    requires left <= edges && e in left && EdgeResult(stored, rotate, entropy, nodeKeys, e) == Err(error)
    requires forall f :: f in left ==> !EdgeLess(f, e)
    ensures EdgeFails(edges, stored, rotate, entropy, nodeKeys, e, error)
  {
    hide EdgeResult, EdgeLess;
  }

  method ResolveEdges(edges: set<Edge>, stored: OldConfigs, rotate: RotateSelection, entropy: Entropy,
                      nodeKeys: map<string, (string, string)>)
    returns (r: Result<map<Edge, string>, ResolveError>)
    requires EdgesCovered(edges, nodeKeys)
    ensures r.Ok? ==> EdgesResolved(edges, stored, rotate, entropy, nodeKeys, r.value)
    ensures r.Err? ==> exists e :: EdgeFails(edges, stored, rotate, entropy, nodeKeys, e, r.error)
  {
    hide EdgeResult, EdgeLess, EdgesResolved, EdgeFails;
    NoEdges(stored, rotate, entropy, nodeKeys);
    assert edges - edges == {};
    var psks: map<Edge, string> := map[];
    var left := edges;
    while left != {}
      invariant left <= edges && EdgesResolved(edges - left, stored, rotate, entropy, nodeKeys, psks)
      decreases |left|
    {
      var e := FirstEdge(left);
      var psk := ResolveEdge(stored, rotate, entropy, nodeKeys, e);
      if psk.Err? {
        FirstOfLeft(edges, left, stored, rotate, entropy, nodeKeys, psks, e, psk.error);
        return Err(psk.error);
      }
      OneMoreEdge(edges, left, stored, rotate, entropy, nodeKeys, psks, e, psk.value);
      left := left - {e};
      psks := psks[e := psk.value];
    }
    assert edges - {} == edges;
    r := Ok(psks);
  }

  method ResolveKeys(lib: Library, topo: ValidatedTopology, stored: OldConfigs, rotate: RotateSelection, entropy: Entropy)
    returns (r: Result<Resolution, ResolveError>)
    requires Ascending(Names(topo.nodes))
    ensures r.Ok? ==> ResolvesTo(lib, topo, stored, rotate, entropy, r.value.keys)
    ensures r.Ok? ==> r.value.reused == WithFreshness(Names(topo.nodes), stored, rotate, false)
                      && r.value.freshlyKeyed == WithFreshness(Names(topo.nodes), stored, rotate, true)
    ensures r.Err? ==> Justified(lib, topo, stored, rotate, entropy, r.error)
  {
    hide NodesResolved, EdgesResolved, NodeKey, EdgePsk, EdgeSet;
    var nodeKeys, reused, isFresh := ResolveNodeKeys(lib, Names(topo.nodes), stored, rotate, entropy);
    if nodeKeys.Err? {
      return Err(nodeKeys.error);
    }
    AscendingIsDistinct(topo.nodes);
    var edges := ComputeEdges(Names(topo.nodes), topo.masters);
    KeysCoverEdges(lib, topo, stored, rotate, entropy, nodeKeys.value);
    var psks := ResolveEdges(edges, stored, rotate, entropy, nodeKeys.value);
    if psks.Err? {
      return Err(psks.error);
    }
    r := Ok(Resolution(ResolvedKeys(nodeKeys.value, psks.value), reused, isFresh));
  }

  lemma KeysCoverEdges(lib: Library, topo: ValidatedTopology, stored: OldConfigs, rotate: RotateSelection, entropy: Entropy,
                       nodeKeys: map<string, (string, string)>)
    requires NodesResolved(lib, Names(topo.nodes), stored, rotate, entropy, nodeKeys)
    ensures EdgesCovered(Edges(topo), nodeKeys)
  {
    hide NodeKey;
    forall e | e in Edges(topo) ensures e.0 in nodeKeys && e.1 in nodeKeys {
      EdgeEnds(HostSet(Names(topo.nodes)), topo.masters, e);
    }
  }

  /** It has at most one error, and none if it has a result. */
  lemma ErrorIsUnique(lib: Library, topo: ValidatedTopology, stored: OldConfigs, rotate: RotateSelection, entropy: Entropy,
                      a: ResolveError, b: ResolveError)
    requires Justified(lib, topo, stored, rotate, entropy, a)
    ensures Justified(lib, topo, stored, rotate, entropy, b) ==> a == b
    ensures forall keys :: !ResolvesTo(lib, topo, stored, rotate, entropy, keys)
  {
    hide NodeKey, EdgeResult, Edges, Names;
    var hosts := Names(topo.nodes);
    if i: nat :| NodeFails(lib, hosts, stored, rotate, entropy, i, a) {
      assert hosts[i] in hosts;
      if k: nat :| NodeFails(lib, hosts, stored, rotate, entropy, k, b) {
        assert k == i;
      }
    } else {
      var e, nodeKeys :| NodesResolved(lib, hosts, stored, rotate, entropy, nodeKeys) && EdgesCovered(Edges(topo), nodeKeys)
        && EdgeFails(Edges(topo), stored, rotate, entropy, nodeKeys, e, a);
      OneEdgeFails(lib, topo, stored, rotate, entropy, nodeKeys, e, a, b);
    }
  }

  lemma OneEdgeFails(lib: Library, topo: ValidatedTopology, stored: OldConfigs, rotate: RotateSelection, entropy: Entropy,
                     nodeKeys: map<string, (string, string)>, e: Edge, a: ResolveError, b: ResolveError)
    requires NodesResolved(lib, Names(topo.nodes), stored, rotate, entropy, nodeKeys) && EdgesCovered(Edges(topo), nodeKeys)
    requires EdgeFails(Edges(topo), stored, rotate, entropy, nodeKeys, e, a)
    ensures Justified(lib, topo, stored, rotate, entropy, b) ==> a == b
    ensures forall keys :: !ResolvesTo(lib, topo, stored, rotate, entropy, keys)
  {
    hide NodeKey, EdgeResult, Edges, Names, EdgeLess;
    var hosts := Names(topo.nodes);
    forall i: nat | i < |hosts| ensures NodeKey(lib, stored, rotate, entropy, hosts[i]).Ok? {
      assert hosts[i] in hosts;
    }
    forall other | NodesResolved(lib, hosts, stored, rotate, entropy, other) ensures other == nodeKeys {
      SameNodes(lib, hosts, stored, rotate, entropy, nodeKeys, other);
    }
    forall f | f in Edges(topo) ensures f == e || EdgeLess(f, e) || EdgeLess(e, f) {
      EdgeLessOrders(f, e, e);
    }
  }

  lemma SameNodes(lib: Library, hosts: seq<string>, stored: OldConfigs, rotate: RotateSelection, entropy: Entropy,
                  k: map<string, (string, string)>, l: map<string, (string, string)>)
    requires NodesResolved(lib, hosts, stored, rotate, entropy, k) && NodesResolved(lib, hosts, stored, rotate, entropy, l)
    ensures k == l
  {
    hide NodeKey;
    assert k.Keys == l.Keys;
  }

  /** Resolution has at most one outcome. */
  lemma ResolutionIsUnique(lib: Library, topo: ValidatedTopology, stored: OldConfigs, rotate: RotateSelection, entropy: Entropy,
                           k: ResolvedKeys, l: ResolvedKeys)
    requires ResolvesTo(lib, topo, stored, rotate, entropy, k) && ResolvesTo(lib, topo, stored, rotate, entropy, l)
    ensures k == l
  {
    hide NodeKey, EdgePsk;
    assert k.nodeKeys == l.nodeKeys;
    assert k.edgePsks == l.edgePsks;
  }
}
