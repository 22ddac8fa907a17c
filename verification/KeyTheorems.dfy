/** What key resolution keeps: identities and preshared keys survive every publication that does not rotate
    them, resolution against published files never fails, and rotation is local. */
module KeyTheorems {
  import opened Outcomes
  import opened Ipv4
  import opened Lib
  import opened Order
  import opened Topology
  import opened Validation
  import opened Fleet
  import opened WgQuick
  import opened Render
  import opened RenderTheorems
  import opened KeyResolution

  // -------------------------------------------------------------------
  // Published files
  // -------------------------------------------------------------------

  /** One generation: its topology and the keys its files were rendered from. */
  datatype Generation = Generation(topo: ValidatedTopology, keys: ResolvedKeys)

  ghost predicate ExactKeys(topo: ValidatedTopology, keys: ResolvedKeys) {
    keys.nodeKeys.Keys == HostSet(Names(topo.nodes)) && keys.edgePsks.Keys == Edges(topo)
  }

  ghost predicate GenerationOk(lib: Library, g: Generation) {
    WellFormed(lib, g.topo) && KeysOk(lib, g.topo, g.keys) && ExactKeys(g.topo, g.keys)
  }

  /** `stored` is what the desired hosts find when they read back the files of generation `g`. */
  ghost predicate Fetched(g: Generation, desired: ValidatedTopology, stored: OldConfigs) {
    && (forall h :: h in stored ==> h in Names(g.topo.nodes) && Intended(g.topo, g.keys, h) == Ok(stored[h]))
    && forall h :: h in Names(desired.nodes) ==> (h in stored <==> h in Names(g.topo.nodes))
  }

  /** The random source gives valid keys, and never a public key that is already in use. */
  ghost predicate EntropyOk(lib: Library, g: Generation, desired: ValidatedTopology, entropy: Entropy) {
    && (forall h :: h in Names(desired.nodes) ==> lib.validKey(entropy.keyOf(h)))
    && (forall e :: e in Edges(desired) ==> lib.validKey(entropy.pskOf(e)))
    && (forall h, k :: h in Names(desired.nodes) && k in Names(desired.nodes) && h != k ==>
          lib.publicOf(entropy.keyOf(h)) != lib.publicOf(entropy.keyOf(k)))
    && forall h, k :: h in Names(desired.nodes) && k in g.keys.nodeKeys ==>
         lib.publicOf(entropy.keyOf(h)) != g.keys.nodeKeys[k].1
  }

  /** The edge existed and neither end gets a new key. */
  ghost predicate Survives(g: Generation, stored: OldConfigs, rotate: RotateSelection, e: Edge) {
    e in Edges(g.topo) && !IsFresh(stored, rotate, e.0) && !IsFresh(stored, rotate, e.1)
  }

  /** The next keys, said without reference to any file: known identities and surviving edges keep theirs. */
  ghost function NextKeys(lib: Library, g: Generation, desired: ValidatedTopology, stored: OldConfigs,
                          rotate: RotateSelection, entropy: Entropy): ResolvedKeys
    requires forall h :: h in stored ==> h in g.keys.nodeKeys
    requires forall e :: e in Edges(g.topo) ==> e in g.keys.edgePsks
  {
    ResolvedKeys(
      map h | h in HostSet(Names(desired.nodes)) ::
        if IsFresh(stored, rotate, h) then KeyPair(lib, entropy.keyOf(h)) else g.keys.nodeKeys[h],
      map e | e in Edges(desired) ::
        if Survives(g, stored, rotate, e) then g.keys.edgePsks[e] else entropy.pskOf(e))
  }

  // -------------------------------------------------------------------
  // Records in rendered files
  // -------------------------------------------------------------------

  lemma {:induction false} RecordFinds(peers: seq<ParsedPeer>, publicKey: string, i: nat)
    requires i < |peers| && peers[i].publicKey == publicKey
    requires forall j :: 0 <= j < i ==> peers[j].publicKey != publicKey
    ensures Record(peers, publicKey) == Some(peers[i].presharedKey)
  {
    if i > 0 {
      RecordFinds(peers[1..], publicKey, i - 1);
    }
  }

  lemma {:induction false} RecordMisses(peers: seq<ParsedPeer>, publicKey: string)
    requires forall j :: 0 <= j < |peers| ==> peers[j].publicKey != publicKey
    ensures Record(peers, publicKey) == None
  {
    if |peers| > 0 {
      RecordMisses(peers[1..], publicKey);
    }
  }

  lemma NodeAt(topo: ValidatedTopology, h: string) returns (i: nat)
    requires h in Names(topo.nodes)
    ensures i < |topo.nodes| && topo.nodes[i].hostname == h
  {
    i :| 0 <= i < |topo.nodes| && Names(topo.nodes)[i] == h;
  }

  /** The file of node `a` records a preshared key for node `b` iff they share an edge, and then it is the
      edge's key: both ends of an edge record the same. */
  lemma RecordInFile(lib: Library, topo: ValidatedTopology, keys: ResolvedKeys, a: nat, b: nat)
    requires WellFormed(lib, topo) && KeysOk(lib, topo, keys) && a < |topo.nodes| && b < |topo.nodes|
    ensures Intended(topo, keys, topo.nodes[a].hostname).Ok? && topo.nodes[b].hostname in keys.nodeKeys
    ensures var (x, y) := (topo.nodes[a].hostname, topo.nodes[b].hostname);
            && (Adjacent(x, y, topo.masters) ==> CanonicalPair(x, y) in keys.edgePsks)
            && Record(Intended(topo, keys, x).value.peers, keys.nodeKeys[y].1)
               == if Adjacent(x, y, topo.masters) then Some(keys.edgePsks[CanonicalPair(x, y)]) else None
  {
    hide OnePeer, PeerNodes, Peers, Lookup, AllowedNets, FleetOk, NodeOk, CanonicalPair, Adjacent, KeysOk, Record;
    IntendedExists(lib, topo, keys, a);
    PeerKeyIs(lib, topo, keys, b, b);
    var x, y := topo.nodes[a].hostname, topo.nodes[b].hostname;
    var peers := Intended(topo, keys, x).value.peers;
    hide Intended;
    if Adjacent(x, y, topo.masters) {
      var i := NodeIsPeer(topo, x, b);
      IntendedShape(topo, keys, x);
      var k := PeerInFile(topo, keys, a, i);
      OnePeerShape(keys, topo.nodes[a], topo.nodes[k]);
      forall j | 0 <= j < i ensures peers[j].publicKey != keys.nodeKeys[y].1 {
        OtherPeer(lib, topo, keys, a, b, i, j);
      }
      RecordFinds(peers, keys.nodeKeys[y].1, i);
    } else {
      forall j | 0 <= j < |peers| ensures peers[j].publicKey != keys.nodeKeys[y].1 {
        var m := PeerInFile(topo, keys, a, j);
        OnePeerShape(keys, topo.nodes[a], topo.nodes[m]);
        PeerKeyIs(lib, topo, keys, m, b);
      }
      RecordMisses(peers, keys.nodeKeys[y].1);
    }
  }

  lemma OtherPeer(lib: Library, topo: ValidatedTopology, keys: ResolvedKeys, a: nat, b: nat, i: nat, j: nat)
    requires Ascending(Names(topo.nodes)) && KeysOk(lib, topo, keys) && a < |topo.nodes| && b < |topo.nodes|
    requires Intended(topo, keys, topo.nodes[a].hostname).Ok?
    requires j < i < |Intended(topo, keys, topo.nodes[a].hostname).value.peers|
    requires i < |PeerNodes(topo.nodes, topo.masters, topo.nodes[a].hostname)|
    requires PeerNodes(topo.nodes, topo.masters, topo.nodes[a].hostname)[i] == topo.nodes[b]
    ensures topo.nodes[b].hostname in keys.nodeKeys
    ensures Intended(topo, keys, topo.nodes[a].hostname).value.peers[j].publicKey != keys.nodeKeys[topo.nodes[b].hostname].1
  {
    hide OnePeer, PeerNodes, Peers, Lookup, AllowedNets, CanonicalPair, Adjacent, KeysOk, Intended;
    var m := PeerInFile(topo, keys, a, j);
    OnePeerShape(keys, topo.nodes[a], topo.nodes[m]);
    PeerKeyIs(lib, topo, keys, m, b);
    PeerNodesAscending(topo.nodes, topo.masters, topo.nodes[a].hostname);
    AscendingIsDistinct(PeerNodes(topo.nodes, topo.masters, topo.nodes[a].hostname));
  }

  /** What a stored file says about its own key. */
  lemma StoredKey(lib: Library, g: Generation, desired: ValidatedTopology, stored: OldConfigs, h: string)
    requires GenerationOk(lib, g) && Fetched(g, desired, stored) && h in stored
    ensures h in g.keys.nodeKeys && lib.validKey(g.keys.nodeKeys[h].0)
    ensures g.keys.nodeKeys[h] == KeyPair(lib, g.keys.nodeKeys[h].0)
    ensures stored[h].interface.privateKey == g.keys.nodeKeys[h].0
  {
    hide FleetOk, NodeOk, Intended, ExactKeys;
    var i := NodeAt(g.topo, h);
    IntendedInterface(g.topo, g.keys, i);
    assert NodeKeyOk(lib, g.keys, g.topo.nodes[i].hostname);
  }

  /** What two stored files say about their common edge. */
  lemma StoredRecord(lib: Library, g: Generation, desired: ValidatedTopology, stored: OldConfigs, a: string, b: string)
    requires GenerationOk(lib, g) && Fetched(g, desired, stored) && a in stored && b in stored && Less(a, b)
    ensures a in g.keys.nodeKeys && b in g.keys.nodeKeys && ((a, b) in Edges(g.topo) ==> (a, b) in g.keys.edgePsks)
    ensures RecordIn(stored, a, g.keys.nodeKeys[b].1)
         == if (a, b) in Edges(g.topo) then Some(g.keys.edgePsks[(a, b)]) else None
    ensures RecordIn(stored, b, g.keys.nodeKeys[a].1)
         == if (a, b) in Edges(g.topo) then Some(g.keys.edgePsks[(a, b)]) else None
  {
    hide FleetOk, NodeOk, Intended, Record, EdgeSet, WellFormed, KeysOk;
    StoredKey(lib, g, desired, stored, a);
    StoredKey(lib, g, desired, stored, b);
    var i := NodeAt(g.topo, a);
    var k := NodeAt(g.topo, b);
    RecordInFile(lib, g.topo, g.keys, i, k);
    RecordInFile(lib, g.topo, g.keys, k, i);
    EdgeIsAdjacent(g.topo, a, b);
    PairSymmetric(a, b);
  }

  lemma EdgeIsAdjacent(topo: ValidatedTopology, a: string, b: string)
    requires a in Names(topo.nodes) && b in Names(topo.nodes) && Less(a, b)
    ensures (a, b) in Edges(topo) <==> Adjacent(a, b, topo.masters)
    ensures Adjacent(a, b, topo.masters) <==> Adjacent(b, a, topo.masters)
    ensures CanonicalPair(a, b) == (a, b)
  {
    LessAsymmetric(a, b);
  }

  // -------------------------------------------------------------------
  // Conservation
  // -------------------------------------------------------------------

  ghost predicate Step(lib: Library, g: Generation, desired: ValidatedTopology, stored: OldConfigs,
                       rotate: RotateSelection, entropy: Entropy)
  {
    && GenerationOk(lib, g) && WellFormed(lib, desired) && Fetched(g, desired, stored)
    && EntropyOk(lib, g, desired, entropy)
  }

  lemma Defined(lib: Library, g: Generation, desired: ValidatedTopology, stored: OldConfigs)
    requires GenerationOk(lib, g) && Fetched(g, desired, stored)
    ensures forall h :: h in stored ==> h in g.keys.nodeKeys
    ensures forall e :: e in Edges(g.topo) ==> e in g.keys.edgePsks
  {
    hide WellFormed, KeysOk, Intended, EdgeSet;
  }

  lemma NodesAreNext(lib: Library, g: Generation, desired: ValidatedTopology, stored: OldConfigs,
                     rotate: RotateSelection, entropy: Entropy)
    requires Step(lib, g, desired, stored, rotate, entropy)
    ensures forall h :: h in stored ==> h in g.keys.nodeKeys
    ensures forall e :: e in Edges(g.topo) ==> e in g.keys.edgePsks
    ensures NodesResolved(lib, Names(desired.nodes), stored, rotate, entropy,
                          NextKeys(lib, g, desired, stored, rotate, entropy).nodeKeys)
  {
    hide GenerationOk, Fetched, EntropyOk, WellFormed, Edges, IsRotated;
    Defined(lib, g, desired, stored);
    forall h | h in Names(desired.nodes)
      ensures NodeKey(lib, stored, rotate, entropy, h) == Ok(NextKeys(lib, g, desired, stored, rotate, entropy).nodeKeys[h])
    {
      if !IsFresh(stored, rotate, h) {
        StoredKey(lib, g, desired, stored, h);
        KeyText(lib, g.keys.nodeKeys[h].0);
      }
    }
  }

  lemma NextKeysAt(lib: Library, g: Generation, desired: ValidatedTopology, stored: OldConfigs,
                   rotate: RotateSelection, entropy: Entropy, e: Edge)
    requires forall h :: h in stored ==> h in g.keys.nodeKeys
    requires forall f :: f in Edges(g.topo) ==> f in g.keys.edgePsks
    requires e in Edges(desired)
    ensures var next := NextKeys(lib, g, desired, stored, rotate, entropy);
            && e.0 in next.nodeKeys && e.1 in next.nodeKeys && e in next.edgePsks
            && (!IsFresh(stored, rotate, e.0) ==> next.nodeKeys[e.0] == g.keys.nodeKeys[e.0])
            && (!IsFresh(stored, rotate, e.1) ==> next.nodeKeys[e.1] == g.keys.nodeKeys[e.1])
            && next.edgePsks[e] == if Survives(g, stored, rotate, e) then g.keys.edgePsks[e] else entropy.pskOf(e)
  {
    EdgeEnds(HostSet(Names(desired.nodes)), desired.masters, e);
    hide IsRotated, EdgeSet, KeyPair;
  }

  lemma EdgeIsNext(lib: Library, g: Generation, desired: ValidatedTopology, stored: OldConfigs,
                   rotate: RotateSelection, entropy: Entropy, e: Edge)
    requires GenerationOk(lib, g) && Fetched(g, desired, stored) && e in Edges(desired)
    ensures forall h :: h in stored ==> h in g.keys.nodeKeys
    ensures forall f :: f in Edges(g.topo) ==> f in g.keys.edgePsks
    ensures var next := NextKeys(lib, g, desired, stored, rotate, entropy);
            && e.0 in next.nodeKeys && e.1 in next.nodeKeys && e in next.edgePsks
            && EdgeResult(stored, rotate, entropy, next.nodeKeys, e) == Ok(next.edgePsks[e])
  {
    hide GenerationOk, Fetched, IsFresh, RecordIn, NextKeys, Edges, Less;
    Defined(lib, g, desired, stored);
    NextKeysAt(lib, g, desired, stored, rotate, entropy, e);
    EdgesAreOrdered(desired, e);
    NotFreshIsStored(stored, rotate, e);
    if !IsFresh(stored, rotate, e.0) && !IsFresh(stored, rotate, e.1) {
      StoredRecord(lib, g, desired, stored, e.0, e.1);
      assert (e.0, e.1) == e;
    }
  }

  lemma NotFreshIsStored(stored: OldConfigs, rotate: RotateSelection, e: Edge)
    ensures !IsFresh(stored, rotate, e.0) ==> e.0 in stored
    ensures !IsFresh(stored, rotate, e.1) ==> e.1 in stored
  {
  }

  lemma EdgesAreOrdered(topo: ValidatedTopology, e: Edge)
    ensures e in Edges(topo) ==> Less(e.0, e.1)
  {
  }

  lemma NextEdges(lib: Library, g: Generation, desired: ValidatedTopology, stored: OldConfigs,
                  rotate: RotateSelection, entropy: Entropy)
    requires forall h :: h in stored ==> h in g.keys.nodeKeys
    requires forall e :: e in Edges(g.topo) ==> e in g.keys.edgePsks
    ensures forall e :: e in NextKeys(lib, g, desired, stored, rotate, entropy).edgePsks <==> e in Edges(desired)
  {
    hide Survives, IsFresh, EdgeSet;
  }

  lemma EdgesAreNext(lib: Library, g: Generation, desired: ValidatedTopology, stored: OldConfigs,
                     rotate: RotateSelection, entropy: Entropy)
    requires GenerationOk(lib, g) && Fetched(g, desired, stored)
    ensures forall h :: h in stored ==> h in g.keys.nodeKeys
    ensures forall e :: e in Edges(g.topo) ==> e in g.keys.edgePsks
    ensures var next := NextKeys(lib, g, desired, stored, rotate, entropy);
            EdgesResolved(Edges(desired), stored, rotate, entropy, next.nodeKeys, next.edgePsks)
  {
    hide GenerationOk, Fetched, NextKeys, Edges, EdgeResult;
    Defined(lib, g, desired, stored);
    var next := NextKeys(lib, g, desired, stored, rotate, entropy);
    NextEdges(lib, g, desired, stored, rotate, entropy);
    forall e | e in Edges(desired)
      ensures e.0 in next.nodeKeys && e.1 in next.nodeKeys
      ensures EdgeResult(stored, rotate, entropy, next.nodeKeys, e) == Ok(next.edgePsks[e])
    {
      EdgeIsNext(lib, g, desired, stored, rotate, entropy, e);
    }
  }

  /** Against files of one earlier generation, over any old topology, resolution for any new topology never
      fails: no bad stored key, no one-sided edge, no conflicting preshared keys. What it produces keeps every
      unrotated known identity and the preshared key of every surviving edge. */
  lemma KeysAreConserved(lib: Library, g: Generation, desired: ValidatedTopology, stored: OldConfigs,
                         rotate: RotateSelection, entropy: Entropy)
    requires Step(lib, g, desired, stored, rotate, entropy)
    ensures forall error :: !Justified(lib, desired, stored, rotate, entropy, error)
    ensures forall h :: h in stored ==> h in g.keys.nodeKeys
    ensures forall e :: e in Edges(g.topo) ==> e in g.keys.edgePsks
    ensures ResolvesTo(lib, desired, stored, rotate, entropy, NextKeys(lib, g, desired, stored, rotate, entropy))
  {
    NodesAreNext(lib, g, desired, stored, rotate, entropy);
    EdgesAreNext(lib, g, desired, stored, rotate, entropy);
    hide Step, NextKeys, NodeKey, EdgePsk, IsFresh, Edges;
    var next := NextKeys(lib, g, desired, stored, rotate, entropy);
    forall error ensures !Justified(lib, desired, stored, rotate, entropy, error) {
      NoErrors(lib, desired, stored, rotate, entropy, next, error);
    }
  }

  lemma NoErrors(lib: Library, topo: ValidatedTopology, stored: OldConfigs, rotate: RotateSelection, entropy: Entropy,
                 next: ResolvedKeys, error: ResolveError)
    requires ResolvesTo(lib, topo, stored, rotate, entropy, next)
    ensures !Justified(lib, topo, stored, rotate, entropy, error)
  {
    hide NodeKey, EdgePsk, IsFresh, Edges;
    forall nodeKeys | NodesResolved(lib, Names(topo.nodes), stored, rotate, entropy, nodeKeys)
      ensures nodeKeys == next.nodeKeys
    {
    }
  }

  lemma NextKeysAreValid(lib: Library, g: Generation, desired: ValidatedTopology, stored: OldConfigs,
                         rotate: RotateSelection, entropy: Entropy)
    requires Step(lib, g, desired, stored, rotate, entropy)
    ensures forall h :: h in stored ==> h in g.keys.nodeKeys
    ensures forall e :: e in Edges(g.topo) ==> e in g.keys.edgePsks
    ensures KeysOk(lib, desired, NextKeys(lib, g, desired, stored, rotate, entropy))
  {
    hide Step, Edges, NextKeys, NodeKeyOk, PskOk;
    StepDefined(lib, g, desired, stored, rotate, entropy);
    var next := NextKeys(lib, g, desired, stored, rotate, entropy);
    forall i | 0 <= i < |desired.nodes| ensures NodeKeyOk(lib, next, desired.nodes[i].hostname) {
      NextNodeOk(lib, g, desired, stored, rotate, entropy, i);
    }
    forall i, k | 0 <= i < k < |desired.nodes|
      ensures desired.nodes[i].hostname in next.nodeKeys && desired.nodes[k].hostname in next.nodeKeys
      ensures next.nodeKeys[desired.nodes[i].hostname].1 != next.nodeKeys[desired.nodes[k].hostname].1
    {
      NextNodesDiffer(lib, g, desired, stored, rotate, entropy, i, k);
    }
    forall e | e in Edges(desired) ensures PskOk(lib, next, e) {
      NextPskOk(lib, g, desired, stored, rotate, entropy, e);
    }
  }

  lemma StepDefined(lib: Library, g: Generation, desired: ValidatedTopology, stored: OldConfigs,
                    rotate: RotateSelection, entropy: Entropy)
    requires Step(lib, g, desired, stored, rotate, entropy)
    ensures forall h :: h in stored ==> h in g.keys.nodeKeys
    ensures forall e :: e in Edges(g.topo) ==> e in g.keys.edgePsks
    ensures WellFormed(lib, desired)
  {
    hide GenerationOk, Fetched, EntropyOk, WellFormed, Edges;
    Defined(lib, g, desired, stored);
  }

  /** The next keys are valid keys again, so the next generation can be published and read back. */
  lemma NextKeysAreOk(lib: Library, g: Generation, desired: ValidatedTopology, stored: OldConfigs,
                      rotate: RotateSelection, entropy: Entropy)
    requires Step(lib, g, desired, stored, rotate, entropy)
    ensures forall h :: h in stored ==> h in g.keys.nodeKeys
    ensures forall e :: e in Edges(g.topo) ==> e in g.keys.edgePsks
    ensures GenerationOk(lib, Generation(desired, NextKeys(lib, g, desired, stored, rotate, entropy)))
  {
    hide Step, Edges, NextKeys, KeysOk, WellFormed, ExactKeys;
    StepDefined(lib, g, desired, stored, rotate, entropy);
    NextKeysAreExact(lib, g, desired, stored, rotate, entropy);
    NextKeysAreValid(lib, g, desired, stored, rotate, entropy);
  }

  lemma NextKeysAreExact(lib: Library, g: Generation, desired: ValidatedTopology, stored: OldConfigs,
                         rotate: RotateSelection, entropy: Entropy)
    requires forall h :: h in stored ==> h in g.keys.nodeKeys
    requires forall e :: e in Edges(g.topo) ==> e in g.keys.edgePsks
    ensures ExactKeys(desired, NextKeys(lib, g, desired, stored, rotate, entropy))
  {
    hide IsFresh, Survives, EdgeSet;
  }

  lemma NextPskOk(lib: Library, g: Generation, desired: ValidatedTopology, stored: OldConfigs,
                  rotate: RotateSelection, entropy: Entropy, e: Edge)
    requires Step(lib, g, desired, stored, rotate, entropy) && e in Edges(desired)
    ensures forall h :: h in stored ==> h in g.keys.nodeKeys
    ensures forall f :: f in Edges(g.topo) ==> f in g.keys.edgePsks
    ensures PskOk(lib, NextKeys(lib, g, desired, stored, rotate, entropy), e)
  {
    Defined(lib, g, desired, stored);
    NextKeysAt(lib, g, desired, stored, rotate, entropy, e);
    hide Fetched, WellFormed, NextKeys, EdgeSet, IsFresh, ExactKeys, NodeKeyOk;
    assert e in Edges(g.topo) ==> PskOk(lib, g.keys, e);
  }

  lemma HostIsStored(stored: OldConfigs, rotate: RotateSelection, h: string)
    ensures !IsFresh(stored, rotate, h) ==> h in stored
  {
  }

  lemma FreshKeyOk(lib: Library, privateKey: string)
    ensures KeyPair(lib, privateKey) == (privateKey, lib.publicOf(privateKey))
  {
  }

  lemma NextNodeKey(lib: Library, g: Generation, desired: ValidatedTopology, stored: OldConfigs,
                    rotate: RotateSelection, entropy: Entropy, h: string)
    requires forall k :: k in stored ==> k in g.keys.nodeKeys
    requires forall e :: e in Edges(g.topo) ==> e in g.keys.edgePsks
    requires h in Names(desired.nodes)
    ensures var next := NextKeys(lib, g, desired, stored, rotate, entropy);
            && h in next.nodeKeys
            && next.nodeKeys[h] == if IsFresh(stored, rotate, h) then KeyPair(lib, entropy.keyOf(h)) else g.keys.nodeKeys[h]
  {
    hide IsFresh, Survives, EdgeSet, KeyPair;
  }

  lemma NextNodeOk(lib: Library, g: Generation, desired: ValidatedTopology, stored: OldConfigs, rotate: RotateSelection,
                   entropy: Entropy, i: nat)
    requires Step(lib, g, desired, stored, rotate, entropy) && i < |desired.nodes|
    ensures forall h :: h in stored ==> h in g.keys.nodeKeys
    ensures forall e :: e in Edges(g.topo) ==> e in g.keys.edgePsks
    ensures NodeKeyOk(lib, NextKeys(lib, g, desired, stored, rotate, entropy), desired.nodes[i].hostname)
  {
    hide Fetched, GenerationOk, WellFormed, IsFresh, Edges, NextKeys, Lawful;
    Defined(lib, g, desired, stored);
    var h := desired.nodes[i].hostname;
    assert Names(desired.nodes)[i] == h;
    NextNodeKey(lib, g, desired, stored, rotate, entropy, h);
    FreshKeyOk(lib, entropy.keyOf(h));
    if !IsFresh(stored, rotate, h) {
      HostIsStored(stored, rotate, h);
      StoredKey(lib, g, desired, stored, h);
    }
  }

  lemma NextNodesDiffer(lib: Library, g: Generation, desired: ValidatedTopology, stored: OldConfigs,
                        rotate: RotateSelection, entropy: Entropy, i: nat, k: nat)
    requires Step(lib, g, desired, stored, rotate, entropy) && i < k < |desired.nodes|
    ensures forall h :: h in stored ==> h in g.keys.nodeKeys
    ensures forall e :: e in Edges(g.topo) ==> e in g.keys.edgePsks
    ensures var next := NextKeys(lib, g, desired, stored, rotate, entropy);
            && desired.nodes[i].hostname in next.nodeKeys && desired.nodes[k].hostname in next.nodeKeys
            && next.nodeKeys[desired.nodes[i].hostname].1 != next.nodeKeys[desired.nodes[k].hostname].1
  {
    Defined(lib, g, desired, stored);
    hide FleetOk, NodeOk, IsRotated, Edges, Intended;
    var a, b := desired.nodes[i].hostname, desired.nodes[k].hostname;
    AscendingIsDistinct(desired.nodes);
    assert Names(desired.nodes)[i] == a && Names(desired.nodes)[k] == b && a != b;
    if !IsFresh(stored, rotate, a) && !IsFresh(stored, rotate, b) {
      KeptKeysDiffer(lib, g, a, b);
    }
  }

  lemma KeptKeysDiffer(lib: Library, g: Generation, a: string, b: string)
    requires GenerationOk(lib, g) && a in g.keys.nodeKeys && b in g.keys.nodeKeys && a != b
    ensures g.keys.nodeKeys[a].1 != g.keys.nodeKeys[b].1
  {
    hide WellFormed, Edges;
    var i := NodeAt(g.topo, a);
    var k := NodeAt(g.topo, b);
    PeerKeyIs(lib, g.topo, g.keys, i, k);
  }

  /** Nothing published: what a run over an empty bucket starts from, with nothing stored. */
  const NOTHING: Generation := Generation(ValidatedTopology([], {}), ResolvedKeys(map[], map[]))

  lemma NothingIsOk(lib: Library, desired: ValidatedTopology)
    ensures GenerationOk(lib, NOTHING) && Fetched(NOTHING, desired, map[])
  {
    assert Edges(NOTHING.topo) == {};
    hide EdgeSet;
  }

  function Sample(h: string, a: Addr, endpoint: Option<string>): ValidatedNode {
    ValidatedNode(h, a, 51820, endpoint, None, None, [], None)
  }

  /** A smallest fleet with an edge: one master with an endpoint, one spoke. */
  function SampleGeneration(lib: Library, k0: string, k1: string, psk: string, endpoint: string): Generation {
    Generation(ValidatedTopology([Sample("a", 1, Some(endpoint)), Sample("b", 2, None)], {"a"}),
               ResolvedKeys(map["a" := KeyPair(lib, k0), "b" := KeyPair(lib, k1)], map[("a", "b") := psk]))
  }

  lemma SampleOrder(nodes: seq<ValidatedNode>)
    requires |nodes| == 2 && nodes[0].hostname == "a" && nodes[1].hostname == "b"
    ensures Names(nodes) == ["a", "b"] && HostSet(Names(nodes)) == {"a", "b"}
    ensures Less("a", "b") && !Less("b", "a") && Ascending(Names(nodes))
  {
    assert Names(nodes) == ["a", "b"];
    LessAsymmetric("a", "b");
  }

  lemma SampleEdges()
    requires Less("a", "b") && !Less("b", "a")
    ensures EdgeSet({"a", "b"}, {"a"}) == {("a", "b")}
  {
    hide Less;
    LessIrreflexive("a");
    LessIrreflexive("b");
  }

  lemma SampleNode(lib: Library, h: string, a: Addr, endpoint: Option<string>)
    requires h == "a" || h == "b"
    requires endpoint.Some? ==> EndpointOk(lib, endpoint.value)
    ensures NodeOk(lib, Sample(h, a, endpoint))
  {
    hide EndpointOk;
  }

  lemma SampleKeys(lib: Library, k0: string, k1: string, psk: string, endpoint: string)
    requires lib.validKey(k0) && lib.validKey(k1) && lib.validKey(psk) && lib.publicOf(k0) != lib.publicOf(k1)
    requires Edges(SampleGeneration(lib, k0, k1, psk, endpoint).topo) == {("a", "b")}
    requires HostSet(Names(SampleGeneration(lib, k0, k1, psk, endpoint).topo.nodes)) == {"a", "b"}
    ensures var g := SampleGeneration(lib, k0, k1, psk, endpoint);
            KeysOk(lib, g.topo, g.keys) && ExactKeys(g.topo, g.keys)
  {
    hide Edges, HostSet, Names;
  }

  /** Generations with edges exist wherever there are two key pairs, a preshared key and an endpoint. */
  lemma SampleIsOk(lib: Library, k0: string, k1: string, psk: string, endpoint: string)
    requires lib.validKey(k0) && lib.validKey(k1) && lib.validKey(psk) && lib.publicOf(k0) != lib.publicOf(k1)
    requires EndpointOk(lib, endpoint)
    ensures GenerationOk(lib, SampleGeneration(lib, k0, k1, psk, endpoint))
    ensures Edges(SampleGeneration(lib, k0, k1, psk, endpoint).topo) == {("a", "b")}
  {
    hide EndpointOk, EdgeSet, Less, Names, HostSet, NodeOk, FleetOk, KeysOk, ExactKeys, KeyPair, Ascending;
    SampleOrder(SampleGeneration(lib, k0, k1, psk, endpoint).topo.nodes);
    SampleEdges();
    SampleFleet(endpoint);
    SampleNode(lib, "a", 1, Some(endpoint));
    SampleNode(lib, "b", 2, None);
    SampleKeys(lib, k0, k1, psk, endpoint);
  }

  lemma SampleFleet(endpoint: string)
    ensures FleetOk([Sample("a", 1, Some(endpoint)), Sample("b", 2, None)], {"a"})
  {
  }

  // -------------------------------------------------------------------
  // Whole histories of publications
  // -------------------------------------------------------------------

  /** One `apply` run that publishes: what it wants, what it read, what it rotated, what it drew. */
  datatype Run = Run(desired: ValidatedTopology, stored: OldConfigs, rotate: RotateSelection, entropy: Entropy)

  /** Generations produced by consecutive runs, from any valid first generation. */
  ghost predicate IsChain(lib: Library, gens: seq<Generation>, runs: seq<Run>) {
    && |gens| == |runs| + 1 && GenerationOk(lib, gens[0])
    && forall i :: 0 <= i < |runs| ==> Produces(lib, gens[i], runs[i], gens[i + 1])
  }

  /** The run reads the files of `g` and resolves keys; `next` is what it publishes. */
  ghost predicate Produces(lib: Library, g: Generation, run: Run, next: Generation) {
    && WellFormed(lib, run.desired) && Fetched(g, run.desired, run.stored)
    && EntropyOk(lib, g, run.desired, run.entropy)
    && next.topo == run.desired
    && ResolvesTo(lib, run.desired, run.stored, run.rotate, run.entropy, next.keys)
  }

  /** What one publication produces is determined and valid. */
  lemma ProducedKeys(lib: Library, g: Generation, run: Run, next: Generation)
    requires GenerationOk(lib, g) && Produces(lib, g, run, next)
    ensures GenerationOk(lib, next)
    ensures forall h :: h in run.stored ==> h in g.keys.nodeKeys
    ensures forall e :: e in Edges(g.topo) ==> e in g.keys.edgePsks
    ensures next.keys == NextKeys(lib, g, run.desired, run.stored, run.rotate, run.entropy)
  {
    hide GenerationOk, Fetched, EntropyOk, WellFormed, NextKeys, ResolvesTo, Edges;
    assert Step(lib, g, run.desired, run.stored, run.rotate, run.entropy);
    KeysAreConserved(lib, g, run.desired, run.stored, run.rotate, run.entropy);
    NextKeysAreOk(lib, g, run.desired, run.stored, run.rotate, run.entropy);
    ResolutionIsUnique(lib, run.desired, run.stored, run.rotate, run.entropy, next.keys,
                       NextKeys(lib, g, run.desired, run.stored, run.rotate, run.entropy));
  }

  /** In every history of publications every generation has valid keys, so no run can ever fail to resolve. */
  lemma {:induction false} ChainStaysValid(lib: Library, gens: seq<Generation>, runs: seq<Run>, n: nat)
    requires IsChain(lib, gens, runs) && n < |gens|
    ensures GenerationOk(lib, gens[n])
    decreases n
  {
    hide GenerationOk, Produces;
    if n > 0 {
      ChainStaysValid(lib, gens, runs, n - 1);
      ProducedKeys(lib, gens[n - 1], runs[n - 1], gens[n]);
    }
  }

  /** The node is part of this run's topology and is not rotated by it. */
  predicate Keeps(run: Run, h: string) {
    h in Names(run.desired.nodes) && !IsRotated(run.rotate, h)
  }

  lemma KeptByOne(lib: Library, g: Generation, run: Run, next: Generation, h: string)
    requires GenerationOk(lib, g) && Produces(lib, g, run, next) && h in Names(g.topo.nodes) && Keeps(run, h)
    ensures h in g.keys.nodeKeys && h in next.keys.nodeKeys && next.keys.nodeKeys[h] == g.keys.nodeKeys[h]
    ensures h in Names(next.topo.nodes)
  {
    ProducedKeys(lib, g, run, next);
    hide GenerationOk, EntropyOk, WellFormed, ResolvesTo, Edges;
    assert h in run.stored;
  }

  lemma PskKeptByOne(lib: Library, g: Generation, run: Run, next: Generation, e: Edge)
    requires GenerationOk(lib, g) && Produces(lib, g, run, next) && e in Edges(g.topo) && e in Edges(run.desired)
    requires Keeps(run, e.0) && Keeps(run, e.1)
    ensures e in g.keys.edgePsks && e in next.keys.edgePsks && next.keys.edgePsks[e] == g.keys.edgePsks[e]
    ensures e in Edges(next.topo)
  {
    ProducedKeys(lib, g, run, next);
    EdgeEnds(HostSet(Names(g.topo.nodes)), g.topo.masters, e);
    hide GenerationOk, EntropyOk, WellFormed, ResolvesTo, EdgeSet;
    assert e.0 in run.stored && e.1 in run.stored;
    NextKeysAt(lib, g, run.desired, run.stored, run.rotate, run.entropy, e);
  }

  /** Over any number of publications a node that is always listed and never rotated keeps its identity. */
  lemma {:induction false} IdentityIsKept(lib: Library, gens: seq<Generation>, runs: seq<Run>, i: nat, j: nat, h: string)
    requires IsChain(lib, gens, runs) && i <= j < |gens| && h in Names(gens[i].topo.nodes)
    requires forall k :: i <= k < j ==> Keeps(runs[k], h)
    ensures h in Names(gens[j].topo.nodes)
    ensures h in gens[i].keys.nodeKeys && h in gens[j].keys.nodeKeys
    ensures gens[j].keys.nodeKeys[h] == gens[i].keys.nodeKeys[h]
    decreases j
  {
    hide GenerationOk, Produces, Keeps;
    if i < j {
      IdentityIsKept(lib, gens, runs, i, j - 1, h);
      ChainStaysValid(lib, gens, runs, j - 1);
      KeptByOne(lib, gens[j - 1], runs[j - 1], gens[j], h);
    } else {
      ChainStaysValid(lib, gens, runs, i);
      HasKey(lib, gens[i], h);
    }
  }

  lemma HasKey(lib: Library, g: Generation, h: string)
    requires GenerationOk(lib, g)
    ensures h in Names(g.topo.nodes) ==> h in g.keys.nodeKeys
    ensures forall e :: e in Edges(g.topo) ==> e in g.keys.edgePsks
  {
    hide WellFormed, KeysOk, EdgeSet;
  }

  /** And so does an edge whose two ends are never rotated, as long as it exists. */
  lemma {:induction false} PskIsKept(lib: Library, gens: seq<Generation>, runs: seq<Run>, i: nat, j: nat, e: Edge)
    requires IsChain(lib, gens, runs) && i <= j < |gens| && e in Edges(gens[i].topo)
    requires forall k :: i <= k < j ==> Keeps(runs[k], e.0) && Keeps(runs[k], e.1) && e in Edges(runs[k].desired)
    ensures e in Edges(gens[j].topo)
    ensures e in gens[i].keys.edgePsks && e in gens[j].keys.edgePsks
    ensures gens[j].keys.edgePsks[e] == gens[i].keys.edgePsks[e]
    decreases j
  {
    hide GenerationOk, Produces, Keeps, Edges;
    if i < j {
      PskIsKept(lib, gens, runs, i, j - 1, e);
      ChainStaysValid(lib, gens, runs, j - 1);
      PskKeptByOne(lib, gens[j - 1], runs[j - 1], gens[j], e);
    } else {
      ChainStaysValid(lib, gens, runs, i);
      HasKey(lib, gens[i], e.0);
    }
  }

  // -------------------------------------------------------------------
  // Rotation is local
  // -------------------------------------------------------------------

  /** Node `h` and everything its file mentions is untouched by the rotation. */
  ghost predicate Untouched(topo: ValidatedTopology, rotate: RotateSelection, h: string) {
    && !IsRotated(rotate, h)
    && forall p :: p in Names(topo.nodes) && Adjacent(h, p, topo.masters) ==> !IsRotated(rotate, p)
  }

  lemma {:induction false} SamePeersOfKeys(k: ResolvedKeys, l: ResolvedKeys, local: ValidatedNode, nodes: seq<ValidatedNode>)
    requires forall i :: 0 <= i < |nodes| ==> OnePeer(k, local, nodes[i]) == OnePeer(l, local, nodes[i])
    ensures Peers(k, local, nodes) == Peers(l, local, nodes)
  {
    hide OnePeer;
    if |nodes| > 0 {
      SamePeersOfKeys(k, l, local, nodes[1..]);
    }
  }

  lemma SamePeerOfKeys(lib: Library, g: Generation, run: Run, next: Generation, l: nat, k: nat)
    requires GenerationOk(lib, g) && Produces(lib, g, run, next) && run.desired == g.topo
    requires l < |g.topo.nodes| && k < |g.topo.nodes| && Untouched(g.topo, run.rotate, g.topo.nodes[l].hostname)
    requires Adjacent(g.topo.nodes[l].hostname, g.topo.nodes[k].hostname, g.topo.masters)
    ensures OnePeer(next.keys, g.topo.nodes[l], g.topo.nodes[k]) == OnePeer(g.keys, g.topo.nodes[l], g.topo.nodes[k])
  {
    hide GenerationOk, Produces, IsRotated, EdgeSet, AllowedNets, LocalKeepalive, Less;
    var a, b := g.topo.nodes[l].hostname, g.topo.nodes[k].hostname;
    assert Names(g.topo.nodes)[l] == a && Names(g.topo.nodes)[k] == b;
    assert next.topo == run.desired by { ProducedTopology(lib, g, run, next); }
    KeptByOne(lib, g, run, next, b);
    EdgeMember(HostSet(Names(g.topo.nodes)), g.topo.masters, a, b);
    PskKeptByOne(lib, g, run, next, CanonicalPair(a, b));
  }

  lemma ProducedTopology(lib: Library, g: Generation, run: Run, next: Generation)
    ensures Produces(lib, g, run, next) ==> next.topo == run.desired
  {
    hide Fetched, EntropyOk, WellFormed, ResolvesTo;
  }

  /** With the topology unchanged, a node that is neither rotated nor next to a rotated node gets a
      byte-identical file. */
  lemma RotationIsLocal(lib: Library, g: Generation, run: Run, next: Generation, l: nat)
    requires GenerationOk(lib, g) && Produces(lib, g, run, next) && run.desired == g.topo
    requires l < |g.topo.nodes| && Untouched(g.topo, run.rotate, g.topo.nodes[l].hostname)
    ensures Rendered(lib, next.topo, next.keys, g.topo.nodes[l].hostname)
         == Rendered(lib, g.topo, g.keys, g.topo.nodes[l].hostname)
  {
    hide GenerationOk, Produces, IsRotated, OnePeer, PeerNodes, Adjacent, Peers, Lookup, SelfChecked;
    var h := g.topo.nodes[l].hostname;
    var peers := PeerNodes(g.topo.nodes, g.topo.masters, h);
    assert Names(g.topo.nodes)[l] == h;
    ProducedTopology(lib, g, run, next);
    NamesAscend(lib, g);
    AscendingIsDistinct(g.topo.nodes);
    LookupFinds(g.topo.nodes, l);
    KeptByOne(lib, g, run, next, h);
    forall i | 0 <= i < |peers|
      ensures OnePeer(next.keys, g.topo.nodes[l], peers[i]) == OnePeer(g.keys, g.topo.nodes[l], peers[i])
    {
      var k := PeerIsNode(g.topo, h, i);
      SamePeerOfKeys(lib, g, run, next, l, k);
    }
    SamePeersOfKeys(next.keys, g.keys, g.topo.nodes[l], peers);
  }

  lemma NamesAscend(lib: Library, g: Generation)
    requires GenerationOk(lib, g)
    ensures Ascending(Names(g.topo.nodes))
  {
    hide KeysOk, ExactKeys, FleetOk, NodeOk;
  }

  // -------------------------------------------------------------------
  // Fixed point
  // -------------------------------------------------------------------

  /** Publishing, reading every file back and resolving without rotation gives exactly the same keys. */
  lemma ResolutionIsAFixedPoint(lib: Library, g: Generation, stored: OldConfigs, entropy: Entropy)
    requires GenerationOk(lib, g) && Fetched(g, g.topo, stored)
    ensures ResolvesTo(lib, g.topo, stored, RotateNone, entropy, g.keys)
    ensures forall error :: !Justified(lib, g.topo, stored, RotateNone, entropy, error)
  {
    FixedNodes(lib, g, stored, entropy);
    FixedEdges(lib, g, stored, entropy);
    hide GenerationOk, Fetched, NodesResolved, EdgesResolved;
    forall error ensures !Justified(lib, g.topo, stored, RotateNone, entropy, error) {
      NoErrors(lib, g.topo, stored, RotateNone, entropy, g.keys, error);
    }
  }

  lemma AllStored(lib: Library, g: Generation, stored: OldConfigs)
    requires GenerationOk(lib, g) && Fetched(g, g.topo, stored)
    ensures forall h :: h in g.keys.nodeKeys <==> h in Names(g.topo.nodes)
    ensures forall e :: e in g.keys.edgePsks <==> e in Edges(g.topo)
    ensures forall h :: h in Names(g.topo.nodes) ==> h in stored && !IsFresh(stored, RotateNone, h)
  {
    hide WellFormed, KeysOk, EdgeSet, Intended;
  }

  lemma FixedNode(lib: Library, g: Generation, stored: OldConfigs, entropy: Entropy, h: string)
    requires GenerationOk(lib, g) && Fetched(g, g.topo, stored) && h in stored
    ensures h in g.keys.nodeKeys && NodeKey(lib, stored, RotateNone, entropy, h) == Ok(g.keys.nodeKeys[h])
  {
    hide GenerationOk, Fetched, Canonical, IsKey, Lawful;
    StoredKey(lib, g, g.topo, stored, h);
    KeyText(lib, g.keys.nodeKeys[h].0);
  }

  lemma FixedNodes(lib: Library, g: Generation, stored: OldConfigs, entropy: Entropy)
    requires GenerationOk(lib, g) && Fetched(g, g.topo, stored)
    ensures NodesResolved(lib, Names(g.topo.nodes), stored, RotateNone, entropy, g.keys.nodeKeys)
  {
    hide GenerationOk, Fetched, Edges, NodeKey;
    AllStored(lib, g, stored);
    forall h | h in Names(g.topo.nodes)
      ensures NodeKey(lib, stored, RotateNone, entropy, h) == Ok(g.keys.nodeKeys[h])
    {
      FixedNode(lib, g, stored, entropy, h);
    }
  }

  lemma FixedEdge(lib: Library, g: Generation, stored: OldConfigs, entropy: Entropy, e: Edge)
    requires GenerationOk(lib, g) && Fetched(g, g.topo, stored) && e in Edges(g.topo)
    ensures e.0 in g.keys.nodeKeys && e.1 in g.keys.nodeKeys && e in g.keys.edgePsks
    ensures EdgeResult(stored, RotateNone, entropy, g.keys.nodeKeys, e) == Ok(g.keys.edgePsks[e])
  {
    hide GenerationOk, Fetched, Edges, RecordIn, IsFresh, Less;
    AllStored(lib, g, stored);
    EdgeNames(g.topo, e);
    NotFreshIsStored(stored, RotateNone, e);
    StoredRecord(lib, g, g.topo, stored, e.0, e.1);
    assert (e.0, e.1) == e;
  }

  lemma FixedEdges(lib: Library, g: Generation, stored: OldConfigs, entropy: Entropy)
    requires GenerationOk(lib, g) && Fetched(g, g.topo, stored)
    ensures EdgesResolved(Edges(g.topo), stored, RotateNone, entropy, g.keys.nodeKeys, g.keys.edgePsks)
  {
    hide GenerationOk, Fetched, Edges, EdgeResult;
    AllStored(lib, g, stored);
    forall e | e in Edges(g.topo)
      ensures e.0 in g.keys.nodeKeys && e.1 in g.keys.nodeKeys
      ensures EdgeResult(stored, RotateNone, entropy, g.keys.nodeKeys, e) == Ok(g.keys.edgePsks[e])
    {
      FixedEdge(lib, g, stored, entropy, e);
    }
  }

  lemma EdgeNames(topo: ValidatedTopology, e: Edge)
    requires e in Edges(topo)
    ensures e.0 in Names(topo.nodes) && e.1 in Names(topo.nodes) && Less(e.0, e.1)
  {
  }
}
