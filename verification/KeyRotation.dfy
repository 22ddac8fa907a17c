/** Which keys a run replaces, said without reference to resolution, and which published files it refuses. */
module KeyRotation {
  import opened Outcomes
  import opened Lib
  import opened Order
  import opened Topology
  import opened Validation
  import opened Fleet
  import opened WgQuick
  import opened Render
  import opened RenderTheorems
  import opened KeyResolution
  import opened KeyTheorems

  /** The operator asked for a new key. */
  predicate IsSelected(rotate: RotateSelection, h: string) {
    rotate.RotateAll? || (rotate.RotateNamed? && h in rotate.hosts)
  }

  /** A node of the earlier generation that the operator did not select. */
  ghost predicate Stays(g: Generation, rotate: RotateSelection, h: string) {
    h in Names(g.topo.nodes) && !IsSelected(rotate, h)
  }

  /** The stored files are those of the nodes that both generations list. */
  lemma KeptExactly(g: Generation, run: Run, h: string)
    requires Fetched(g, run.desired, run.stored) && h in Names(run.desired.nodes)
    ensures IsFresh(run.stored, run.rotate, h) <==> !Stays(g, run.rotate, h)
  {
    hide Intended;
  }

  /** The keys of the next generation, exactly: a node keeps its pair iff it was published and is not selected, an edge
      keeps its preshared key iff it existed and neither end is selected, and everything else is drawn anew. */
  lemma NextKeysExactly(lib: Library, g: Generation, run: Run, next: Generation)
    requires GenerationOk(lib, g) && Produces(lib, g, run, next)
    ensures forall h :: h in next.keys.nodeKeys <==> h in Names(run.desired.nodes)
    ensures forall h :: h in next.keys.nodeKeys && Stays(g, run.rotate, h) ==>
              h in g.keys.nodeKeys && next.keys.nodeKeys[h] == g.keys.nodeKeys[h]
    ensures forall h :: h in next.keys.nodeKeys && !Stays(g, run.rotate, h) ==>
              next.keys.nodeKeys[h] == (run.entropy.keyOf(h), lib.publicOf(run.entropy.keyOf(h)))
    ensures forall e :: e in next.keys.edgePsks <==> e in Edges(run.desired)
    ensures forall e :: e in Edges(run.desired) ==> EdgeKeyExactly(g, run, next, e)
  {
    ProducedKeys(lib, g, run, next);
    hide GenerationOk, EntropyOk, WellFormed, ResolvesTo, Edges, NextKeys, Fetched, Stays, IsFresh, EdgeKeyExactly;
    forall h | h in Names(run.desired.nodes) ensures NodeKeyExactly(lib, g, run, next, h) {
      NodeExactly(lib, g, run, next, h);
    }
    forall e | e in Edges(run.desired) ensures e in next.keys.edgePsks && EdgeKeyExactly(g, run, next, e) {
      EdgeExactly(lib, g, run, next, e);
    }
    KeysListed(lib, g, run, next);
  }

  ghost predicate NodeKeyExactly(lib: Library, g: Generation, run: Run, next: Generation, h: string) {
    && h in next.keys.nodeKeys
    && (Stays(g, run.rotate, h) ==> h in g.keys.nodeKeys && next.keys.nodeKeys[h] == g.keys.nodeKeys[h])
    && (!Stays(g, run.rotate, h) ==>
          next.keys.nodeKeys[h] == (run.entropy.keyOf(h), lib.publicOf(run.entropy.keyOf(h))))
  }

  ghost predicate EdgeKeyExactly(g: Generation, run: Run, next: Generation, e: Edge) {
    && e in next.keys.edgePsks
    && (if e in Edges(g.topo) && !IsSelected(run.rotate, e.0) && !IsSelected(run.rotate, e.1)
        then e in g.keys.edgePsks && next.keys.edgePsks[e] == g.keys.edgePsks[e]
        else next.keys.edgePsks[e] == run.entropy.pskOf(e))
  }

  lemma KeysListed(lib: Library, g: Generation, run: Run, next: Generation)
    requires GenerationOk(lib, g) && Produces(lib, g, run, next)
    ensures forall h :: h in next.keys.nodeKeys <==> h in Names(run.desired.nodes)
    ensures forall e :: e in next.keys.edgePsks <==> e in Edges(run.desired)
  {
    ProducedKeys(lib, g, run, next);
    hide WellFormed, KeysOk, ResolvesTo, EntropyOk, Fetched, EdgeSet, Produces;
    ProducedTopology(lib, g, run, next);
  }

  lemma NodeExactly(lib: Library, g: Generation, run: Run, next: Generation, h: string)
    requires GenerationOk(lib, g) && Produces(lib, g, run, next) && h in Names(run.desired.nodes)
    ensures NodeKeyExactly(lib, g, run, next, h)
  {
    ProducedKeys(lib, g, run, next);
    hide GenerationOk, EntropyOk, WellFormed, ResolvesTo, Edges, NextKeys, IsFresh, Fetched, Stays;
    KeptExactly(g, run, h);
    NextNodeKey(lib, g, run.desired, run.stored, run.rotate, run.entropy, h);
    HostIsStored(run.stored, run.rotate, h);
  }

  lemma EdgeExactly(lib: Library, g: Generation, run: Run, next: Generation, e: Edge)
    requires GenerationOk(lib, g) && Produces(lib, g, run, next) && e in Edges(run.desired)
    ensures EdgeKeyExactly(g, run, next, e)
  {
    ProducedKeys(lib, g, run, next);
    hide GenerationOk, EntropyOk, WellFormed, ResolvesTo, NextKeys, IsFresh, Fetched, EdgeSet, IsSelected;
    EdgeEnds(HostSet(Names(run.desired.nodes)), run.desired.masters, e);
    KeptExactly(g, run, e.0);
    KeptExactly(g, run, e.1);
    NextKeysAt(lib, g, run.desired, run.stored, run.rotate, run.entropy, e);
    if e in Edges(g.topo) {
      EdgeEnds(HostSet(Names(g.topo.nodes)), g.topo.masters, e);
    }
  }

  /** A node that the operator selects gets a key pair drawn in this run, unlike any of the earlier generation, and every
      edge at it gets a key drawn in this run. */
  lemma RotatedNodeIsNew(lib: Library, g: Generation, run: Run, next: Generation, h: string)
    requires GenerationOk(lib, g) && Produces(lib, g, run, next)
    requires h in Names(run.desired.nodes) && IsSelected(run.rotate, h)
    ensures h in next.keys.nodeKeys && next.keys.nodeKeys[h].0 == run.entropy.keyOf(h)
    ensures forall k :: k in g.keys.nodeKeys ==>
              next.keys.nodeKeys[h].1 != g.keys.nodeKeys[k].1 && next.keys.nodeKeys[h].0 != g.keys.nodeKeys[k].0
    ensures forall e :: e in Edges(run.desired) && (e.0 == h || e.1 == h) ==>
              e in next.keys.edgePsks && next.keys.edgePsks[e] == run.entropy.pskOf(e)
  {
    NextKeysExactly(lib, g, run, next);
    hide WellFormed, ResolvesTo, Edges, Fetched;
    assert EntropyOk(lib, g, run.desired, run.entropy);
    forall k | k in g.keys.nodeKeys ensures lib.publicOf(g.keys.nodeKeys[k].0) == g.keys.nodeKeys[k].1 {
      PublicOfKey(lib, g, k);
    }
  }

  lemma {:induction false} FreshnessMembers(hosts: seq<string>, stored: OldConfigs, rotate: RotateSelection, isFresh: bool,
                                            h: string)
    ensures h in WithFreshness(hosts, stored, rotate, isFresh) <==> h in hosts && IsFresh(stored, rotate, h) == isFresh
  {
    hide IsFresh;
    if |hosts| > 0 {
      var rest, last := hosts[..|hosts| - 1], hosts[|hosts| - 1];
      FreshnessMembers(rest, stored, rotate, isFresh, h);
      assert hosts == rest + [last];
    }
  }

  lemma PublicOfKey(lib: Library, g: Generation, k: string)
    requires GenerationOk(lib, g) && k in g.keys.nodeKeys
    ensures lib.publicOf(g.keys.nodeKeys[k].0) == g.keys.nodeKeys[k].1
  {
    hide WellFormed, Edges;
    var i := NodeAt(g.topo, k);
    assert NodeKeyOk(lib, g.keys, g.topo.nodes[i].hostname);
  }

  // -------------------------------------------------------------------
  // Refused files
  // -------------------------------------------------------------------

  /** The first entry for this public key records `psk`. */
  ghost predicate Records(peers: seq<ParsedPeer>, publicKey: string, psk: string) {
    exists i :: 0 <= i < |peers| && peers[i].publicKey == publicKey && peers[i].presharedKey == psk
      && forall j :: 0 <= j < i ==> peers[j].publicKey != publicKey
  }

  ghost predicate RecordsNothing(peers: seq<ParsedPeer>, publicKey: string) {
    forall i :: 0 <= i < |peers| ==> peers[i].publicKey != publicKey
  }

  lemma {:induction false} RecordMeans(peers: seq<ParsedPeer>, publicKey: string)
    ensures forall psk :: Record(peers, publicKey) == Some(psk) <==> Records(peers, publicKey, psk)
    ensures Record(peers, publicKey) == None <==> RecordsNothing(peers, publicKey)
  {
    forall i: nat | i < |peers| && peers[i].publicKey == publicKey
      && forall j :: 0 <= j < i ==> peers[j].publicKey != publicKey
      ensures Record(peers, publicKey) == Some(peers[i].presharedKey)
    {
      RecordFinds(peers, publicKey, i);
    }
    if RecordsNothing(peers, publicKey) {
      RecordMisses(peers, publicKey);
    } else {
      var i := FirstEntry(peers, publicKey);
      RecordFinds(peers, publicKey, i);
    }
  }

  lemma FirstEntry(peers: seq<ParsedPeer>, publicKey: string) returns (i: nat)
    requires !RecordsNothing(peers, publicKey)
    ensures i < |peers| && peers[i].publicKey == publicKey
    ensures forall j :: 0 <= j < i ==> peers[j].publicKey != publicKey
  {
    i := 0;
    while peers[i].publicKey != publicKey
      invariant i < |peers| && forall j :: 0 <= j < i ==> peers[j].publicKey != publicKey
      decreases |peers| - i
    {
      i := i + 1;
    }
  }

  /** Both ends of the edge have a published file and neither is selected. */
  predicate BothStay(stored: OldConfigs, rotate: RotateSelection, e: Edge) {
    e.0 in stored && e.1 in stored && !IsSelected(rotate, e.0) && !IsSelected(rotate, e.1)
  }

  /** Whatever the published files say, resolution takes the key of an edge from them only if both ends record it alike;
      it refuses ends that record different keys, and an end that records a key the other does not. */
  lemma EdgeIsTakenFromFiles(stored: OldConfigs, rotate: RotateSelection, entropy: Entropy,
                             nodeKeys: map<string, (string, string)>, e: Edge)
    requires e.0 in nodeKeys && e.1 in nodeKeys
    ensures !BothStay(stored, rotate, e) ==> EdgeResult(stored, rotate, entropy, nodeKeys, e) == Ok(entropy.pskOf(e))
    ensures BothStay(stored, rotate, e) ==>
              var a, b := stored[e.0].peers, stored[e.1].peers;
              var aPub, bPub, r := nodeKeys[e.0].1, nodeKeys[e.1].1, EdgeResult(stored, rotate, entropy, nodeKeys, e);
              && (forall x, y :: Records(a, bPub, x) && Records(b, aPub, y) ==>
                    r == if x == y then Ok(x) else Err(ConflictingPsk(e.0, e.1)))
              && (forall x :: Records(a, bPub, x) && RecordsNothing(b, aPub) ==> r == Err(OneSidedEdge(e.0, e.1, e.0)))
              && (forall y :: RecordsNothing(a, bPub) && Records(b, aPub, y) ==> r == Err(OneSidedEdge(e.0, e.1, e.1)))
              && (RecordsNothing(a, bPub) && RecordsNothing(b, aPub) ==> r == Ok(entropy.pskOf(e)))
  {
    if BothStay(stored, rotate, e) {
      RecordMeans(stored[e.0].peers, nodeKeys[e.1].1);
      RecordMeans(stored[e.1].peers, nodeKeys[e.0].1);
    }
    hide Record, Records, RecordsNothing;
  }

  /** A published file whose own key is no key is refused, unless its node is selected. */
  lemma BadKeyIsRefused(lib: Library, topo: ValidatedTopology, stored: OldConfigs, rotate: RotateSelection,
                        entropy: Entropy, h: string)
    requires h in Names(topo.nodes) && h in stored && !IsSelected(rotate, h)
    requires !IsKey(lib, stored[h].interface.privateKey)
    ensures forall keys :: !ResolvesTo(lib, topo, stored, rotate, entropy, keys)
    ensures exists i :: 0 <= i < |topo.nodes|
              && Justified(lib, topo, stored, rotate, entropy, BadStoredKey(topo.nodes[i].hostname))
  {
    hide EdgesResolved, IsKey, Canonical, EdgeFails;
    var hosts := Names(topo.nodes);
    var k :| 0 <= k < |hosts| && hosts[k] == h;
    var i := 0;
    while NodeKey(lib, stored, rotate, entropy, hosts[i]).Ok?
      invariant i <= k && forall j :: 0 <= j < i ==> NodeKey(lib, stored, rotate, entropy, hosts[j]).Ok?
      decreases k - i
    {
      i := i + 1;
    }
    assert NodeFails(lib, hosts, stored, rotate, entropy, i, BadStoredKey(hosts[i]));
    assert topo.nodes[i].hostname == hosts[i];
  }
}
