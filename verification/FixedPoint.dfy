/** The publication loop closes: from an empty bucket or a published one, over any change of topology, a run
    leaves a published generation that the next run can read back, and a second run over an unchanged topology
    creates no generation. */
module FixedPoint {
  import opened Outcomes
  import opened Discovery
  import opened Lib
  import opened Topology
  import opened Validation
  import opened WgQuick
  import opened Render
  import opened RenderTheorems
  import opened KeyResolution
  import opened KeyTheorems
  import opened KeyRotation
  import opened Bucket
  import opened Retention
  import opened Publish
  import opened Apply
  import opened ApplyRun
  import Base32
  import Fleet
  import Hostname
  import Order
  import Protocol
  import ProtocolLanding
  import Validator

  /** The file of `h` in generation `g`. */
  ghost function TextOf(lib: Library, g: Generation, h: string): Result<string, RenderError> {
    Rendered(lib, g.topo, g.keys, h)
  }

  ghost predicate FilePublished(lib: Library, objects: Objects, entry: GenerationEntry, g: Generation,
                                h: string)
  {
    h in entry.nodes && TextOf(lib, g, h).Ok?
    && entry.nodes[h] == Digest(TextOf(lib, g, h).value) && HasFile(objects, h, entry.id, TextOf(lib, g, h).value)
  }

  /** The pointer's current generation is `g`: one file per node, rendered from it, under its digest. */
  ghost predicate Publishes(lib: Library, objects: Objects, doc: CurrentJson, g: Generation) {
    && doc.current.Some?
    && (forall h :: h in doc.current.value.nodes <==> h in Names(g.topo.nodes))
    && forall h :: h in Names(g.topo.nodes) ==> FilePublished(lib, objects, doc.current.value, g, h)
  }

  /** A published file is readable and says what was intended. */
  lemma PublishedFile(lib: Library, objects: Objects, doc: CurrentJson, g: Generation, h: string)
    requires GenerationOk(lib, g) && Publishes(lib, objects, doc, g) && h in doc.current.value.nodes
    ensures Intended(g.topo, g.keys, h).Ok?
    ensures FileIn(lib, objects, doc.current.value, h) == Ok(Intended(g.topo, g.keys, h).value)
  {
    hide Fleet.WellFormed, KeysOk, ExactKeys, Rendered, Parse, NodeObjectKey, FileText;
    var i := NodeAt(g.topo, h);
    RenderingSucceeds(lib, g.topo, g.keys, i);
    assert FilePublished(lib, objects, doc.current.value, g, h);
  }

  /** What a run reads back are the files of the published generation. */
  lemma PublishedIsFetched(lib: Library, objects: Objects, doc: CurrentJson, g: Generation,
                           desired: ValidatedTopology, stored: OldConfigs)
    requires GenerationOk(lib, g) && Publishes(lib, objects, doc, g)
    requires IsFetched(lib, objects, doc.current, Names(desired.nodes), stored)
    ensures Fetched(g, desired, stored)
  {
    hide GenerationOk, FilePublished, FileIn, Intended;
    forall h | h in stored ensures h in Names(g.topo.nodes) && Intended(g.topo, g.keys, h) == Ok(stored[h]) {
      PublishedFile(lib, objects, doc, g, h);
    }
  }

  /** The pointer's current generation is `g`; before the first publication there is none. */
  ghost predicate Refers(lib: Library, objects: Objects, doc: CurrentJson, g: Generation) {
    if doc.current.Some? then Publishes(lib, objects, doc, g) else g == NOTHING
  }

  lemma ReferredIsFetched(lib: Library, objects: Objects, doc: CurrentJson, g: Generation,
                          desired: ValidatedTopology, stored: OldConfigs)
    requires GenerationOk(lib, g) && Refers(lib, objects, doc, g)
    requires IsFetched(lib, objects, doc.current, Names(desired.nodes), stored)
    ensures Fetched(g, desired, stored)
  {
    hide GenerationOk, Publishes, FileIn, Fetched;
    if doc.current.Some? {
      PublishedIsFetched(lib, objects, doc, g, desired, stored);
    } else {
      assert stored.Keys == {};
      NothingIsOk(lib, desired);
    }
  }

  /** Reading back never fails. */
  lemma PublishedIsReadable(lib: Library, objects: Objects, doc: CurrentJson, g: Generation, h: string)
    requires GenerationOk(lib, g) && Refers(lib, objects, doc, g)
    ensures Lists(doc.current, h) ==> FileIn(lib, objects, doc.current.value, h).Ok?
  {
    hide GenerationOk, FilePublished, FileIn, Intended, Publishes;
    if Lists(doc.current, h) {
      PublishedFile(lib, objects, doc, g, h);
    }
  }

  // -------------------------------------------------------------------
  // The next generation
  // -------------------------------------------------------------------

  /** The generation a prepared run stands for. */
  ghost function NextGeneration(topo: ValidatedTopology, p: Prepared): Generation {
    Generation(topo, p.resolution.keys)
  }

  /** A prepared run continues the key history, be it the first run or a later one. */
  lemma PreparedProduces(lib: Library, objects: Objects, g: Generation, topo: ValidatedTopology,
                         rotate: RotateSelection, entropy: Entropy, stored: OldConfigs, p: Prepared)
    requires GenerationOk(lib, g) && Refers(lib, objects, p.baseline, g) && Fleet.WellFormed(lib, topo)
    requires IsPrepared(lib, objects, topo, rotate, entropy, stored, p)
    requires EntropyOk(lib, g, topo, entropy)
    ensures Produces(lib, g, KeyTheorems.Run(topo, stored, rotate, entropy), NextGeneration(topo, p))
    ensures GenerationOk(lib, NextGeneration(topo, p))
  {
    hide GenerationOk, Refers, Fleet.WellFormed, IsValid, IsFetched, ResolvesTo, AllRendered, EntropyOk, Fetched,
      WithFreshness;
    ReferredIsFetched(lib, objects, p.baseline, g, topo, stored);
    ProducedKeys(lib, g, KeyTheorems.Run(topo, stored, rotate, entropy), NextGeneration(topo, p));
  }

  lemma RenderedFile(lib: Library, objects: Objects, topo: ValidatedTopology, rotate: RotateSelection,
                     entropy: Entropy, stored: OldConfigs, p: Prepared)
    requires IsPrepared(lib, objects, topo, rotate, entropy, stored, p)
    ensures forall h :: h in p.files <==> h in Names(topo.nodes)
    ensures forall h :: h in p.files ==> TextOf(lib, NextGeneration(topo, p), h) == Ok(p.files[h])
    ensures IsValid(p.baseline)
  {
    hide IsValid, IsFetched, ResolvesTo, WithFreshness, Rendered;
  }

  lemma RefreshKeepsCurrent(p: Prepared, draws: Draws)
    ensures PlanOf(p, draws).Refresh? ==>
              && p.baseline.current.Some? && PlanOf(p, draws).intended.current == p.baseline.current
              && PlanOf(p, draws).intended.previous == p.baseline.previous
              && p.baseline.current.value.nodes == Protocol.Digests(p.files)
    ensures PlanOf(p, draws).Publish? ==>
              && PlanOf(p, draws).intended.current == Some(GenerationEntry(draws.id, Protocol.Digests(p.files)))
              && PlanOf(p, draws).intended.previous == p.baseline.current
              && PlanOf(p, draws).id == draws.id && PlanOf(p, draws).files == p.files
  {
  }

  /** After a successful run the pointer publishes the generation that the run rendered. */
  lemma RunPublishesItsGeneration(lib: Library, before: Objects, after: Objects,
                                  g: Generation, topo: ValidatedTopology, rotate: RotateSelection, stored: OldConfigs,
                                  p: Prepared, draws: Draws, now: Time, grace: Time)
    requires p.baseline.current.Some? ==> Publishes(lib, before, p.baseline, g)
    requires IsPrepared(lib, before, topo, rotate, draws.entropy, stored, p)
    requires FilesStored(after, PlanOf(p, draws)) && OnlyDoomedGone(before, after, PlanOf(p, draws).intended, now, grace)
    ensures Publishes(lib, after, PlanOf(p, draws).intended, NextGeneration(topo, p))
  {
    hide PlanOf, IsPrepared, OnlyDoomedGone, FileKey, Base32.IsCanonical, HasFile, TextOf, IsValid;
    RenderedFile(lib, before, topo, rotate, draws.entropy, stored, p);
    RefreshKeepsCurrent(p, draws);
    var plan, next := PlanOf(p, draws), NextGeneration(topo, p);
    hide NextGeneration;
    forall h | h in Names(topo.nodes) ensures FilePublished(lib, after, plan.intended.current.value, next, h) {
      if plan.Refresh? {
        SurvivingFile(lib, before, after, g, p, plan.intended, now, grace, h);
      }
    }
  }

  lemma SurvivingFile(lib: Library, before: Objects, after: Objects, g: Generation,
                      p: Prepared, intended: CurrentJson, now: Time, grace: Time, h: string)
    requires Publishes(lib, before, p.baseline, g) && IsValid(p.baseline) && intended.current == p.baseline.current
    requires OnlyDoomedGone(before, after, intended, now, grace)
    requires h in p.files && p.baseline.current.value.nodes == Protocol.Digests(p.files)
    ensures HasFile(after, h, p.baseline.current.value.id, p.files[h])
  {
    hide OnlyDoomedGone, NodeObjectKey, TextOf;
    var entry := p.baseline.current.value;
    assert FilePublished(lib, before, entry, g, h);
    EntryIsValid(p.baseline, h);
    RetainedFilesSurvive(before, after, intended, now, grace, Key(h, entry.id));
  }

  lemma EntryIsValid(doc: CurrentJson, h: string)
    requires IsValid(doc) && doc.current.Some? && h in doc.current.value.nodes
    ensures KeyOk(Key(h, doc.current.value.id))
  {
    hide Base32.IsCanonical, Hostname.IsValid;
  }

  // -------------------------------------------------------------------
  // A second run
  // -------------------------------------------------------------------

  /** Over an unchanged topology and without rotation the keys, and so the bytes, are the published ones. */
  lemma SameTopologySameFiles(lib: Library, objects: Objects, g: Generation, draws: Draws,
                              stored: OldConfigs, p: Prepared)
    requires GenerationOk(lib, g) && Publishes(lib, objects, p.baseline, g)
    requires IsPrepared(lib, objects, g.topo, RotateNone, draws.entropy, stored, p)
    ensures p.resolution.keys == g.keys
    ensures PlanOf(p, draws).Refresh?
  {
    hide GenerationOk, HasFile, IsValid, IsFetched, ResolvesTo, WithFreshness, Rendered, Fetched;
    PublishedIsFetched(lib, objects, p.baseline, g, g.topo, stored);
    ResolutionIsAFixedPoint(lib, g, stored, draws.entropy);
    ResolutionIsUnique(lib, g.topo, stored, RotateNone, draws.entropy, p.resolution.keys, g.keys);
    var nodes := p.baseline.current.value.nodes;
    forall h | h in nodes ensures h in p.files && nodes[h] == Digest(p.files[h]) {
      assert FilePublished(lib, objects, p.baseline.current.value, g, h);
    }
    assert nodes == Protocol.Digests(p.files);
  }

  lemma NoPlanExcuse(lib: Library, objects: Objects, g: Generation, entropy: Entropy, doc: CurrentJson,
                     e: ApplyError)
    requires GenerationOk(lib, g) && Publishes(lib, objects, doc, g)
    ensures !PlanExcuse(lib, objects, g.topo, RotateNone, entropy, doc, e)
  {
    hide GenerationOk, HasFile, IsFetched, ResolvesTo, Rendered, Fetched, Justified, FileIn;
    forall h | Lists(doc.current, h) ensures FileIn(lib, objects, doc.current.value, h).Ok? {
      PublishedIsReadable(lib, objects, doc, g, h);
    }
    forall stored | IsFetched(lib, objects, doc.current, Names(g.topo.nodes), stored)
      ensures forall error :: !Justified(lib, g.topo, stored, RotateNone, entropy, error)
      ensures forall keys :: ResolvesTo(lib, g.topo, stored, RotateNone, entropy, keys) ==> keys == g.keys
    {
      PublishedIsFetched(lib, objects, doc, g, g.topo, stored);
      ResolutionIsAFixedPoint(lib, g, stored, entropy);
      forall keys | ResolvesTo(lib, g.topo, stored, RotateNone, entropy, keys) ensures keys == g.keys {
        ResolutionIsUnique(lib, g.topo, stored, RotateNone, entropy, keys, g.keys);
      }
    }
    forall h | h in Names(g.topo.nodes) ensures Rendered(lib, g.topo, g.keys, h).Ok? {
      assert FilePublished(lib, objects, doc.current.value, g, h);
    }
  }

  // -------------------------------------------------------------------
  // Rotation
  // -------------------------------------------------------------------

  /** The report lists as freshly keyed exactly the desired nodes that were not published or that are selected, and as
      reused exactly the others. */
  lemma ReportedKeysExactly(lib: Library, objects: Objects, g: Generation, topo: ValidatedTopology,
                            rotate: RotateSelection, entropy: Entropy, stored: OldConfigs, p: Prepared, h: string)
    requires GenerationOk(lib, g) && Refers(lib, objects, p.baseline, g)
    requires IsPrepared(lib, objects, topo, rotate, entropy, stored, p) && h in Names(topo.nodes)
    ensures h in p.resolution.freshlyKeyed <==> !Stays(g, rotate, h)
    ensures h in p.resolution.reused <==> Stays(g, rotate, h)
  {
    hide GenerationOk, Refers, IsValid, IsFetched, ResolvesTo, AllRendered, Fetched, WithFreshness, IsFresh, Stays;
    ReferredIsFetched(lib, objects, p.baseline, g, topo, stored);
    KeptExactly(g, KeyTheorems.Run(topo, stored, rotate, entropy), h);
    FreshnessMembers(Names(topo.nodes), stored, rotate, true, h);
    FreshnessMembers(Names(topo.nodes), stored, rotate, false, h);
  }

  /** A node's file tells its private key. */
  lemma FileTellsKey(lib: Library, g: Generation, h: string, text: string)
    requires GenerationOk(lib, g) && h in Names(g.topo.nodes) && TextOf(lib, g, h) == Ok(text)
    ensures h in g.keys.nodeKeys && Parse(lib, text).Ok?
    ensures Parse(lib, text).value.interface.privateKey == g.keys.nodeKeys[h].0
  {
    hide Fleet.WellFormed, KeysOk, ExactKeys, Rendered, Parse, FileText, Intended;
    var i := NodeAt(g.topo, h);
    RenderingSucceeds(lib, g.topo, g.keys, i);
    OrderedNames(lib, g);
    IntendedInterface(g.topo, g.keys, i);
  }

  lemma OrderedNames(lib: Library, g: Generation)
    requires GenerationOk(lib, g)
    ensures Order.Ascending(Names(g.topo.nodes))
  {
    NamesAscend(lib, g);
  }

  /** Selecting a desired node for rotation always publishes a new generation with a new file for it. */
  lemma RotationPublishes(lib: Library, objects: Objects, g: Generation, topo: ValidatedTopology, rotate: RotateSelection,
                          stored: OldConfigs, p: Prepared, draws: Draws, h: string)
    requires GenerationOk(lib, g) && Refers(lib, objects, p.baseline, g) && Fleet.WellFormed(lib, topo)
    requires IsPrepared(lib, objects, topo, rotate, draws.entropy, stored, p) && EntropyOk(lib, g, topo, draws.entropy)
    requires h in Names(topo.nodes) && IsSelected(rotate, h)
    ensures PlanOf(p, draws).Publish? && h in p.resolution.freshlyKeyed && h !in p.resolution.reused
    ensures h in p.files && Parse(lib, p.files[h]).Ok?
    ensures Parse(lib, p.files[h]).value.interface.privateKey == draws.entropy.keyOf(h)
  {
    hide GenerationOk, Refers, Fleet.WellFormed, IsPrepared, EntropyOk, Parse, TextOf, PlanOf, Produces, NextGeneration,
      ExactKeys;
    var run, next := KeyTheorems.Run(topo, stored, rotate, draws.entropy), NextGeneration(topo, p);
    PreparedProduces(lib, objects, g, topo, rotate, draws.entropy, stored, p);
    RenderedFile(lib, objects, topo, rotate, draws.entropy, stored, p);
    ReportedKeysExactly(lib, objects, g, topo, rotate, draws.entropy, stored, p, h);
    ProducedTopology(lib, g, run, next);
    RotatedNodeIsNew(lib, g, run, next, h);
    FileTellsKey(lib, next, h, p.files[h]);
    if PlanOf(p, draws).Refresh? {
      RefreshKeepsCurrent(p, draws);
      PublishedText(lib, objects, g, p, h);
      FileTellsKey(lib, g, h, p.files[h]);
    }
  }

  lemma PublishedText(lib: Library, objects: Objects, g: Generation, p: Prepared, h: string)
    requires Refers(lib, objects, p.baseline, g) && p.baseline.current.Some? && h in p.files
    requires p.baseline.current.value.nodes == Protocol.Digests(p.files)
    ensures h in Names(g.topo.nodes) && TextOf(lib, g, h) == Ok(p.files[h])
  {
    hide TextOf, HasFile;
    assert h in p.baseline.current.value.nodes;
    assert FilePublished(lib, objects, p.baseline.current.value, g, h);
  }

  /** The bucket publishes `g`, and `doc` is its pointer. */
  ghost predicate Holds(lib: Library, objects: Objects, doc: CurrentJson, g: Generation) {
    && CURRENT_JSON_KEY in objects && PointerIn(objects[CURRENT_JSON_KEY].content) == Ok(doc)
    && Publishes(lib, objects, doc, g) && GenerationOk(lib, g)
  }

  lemma NoRunExcuse(lib: Library, objects: Objects, config: TopologyConfig, draws: Draws, doc: CurrentJson,
                    g: Generation, e: ApplyError)
    requires ValidConfig(lib, config) && AllFieldsOk(lib, config.nodes) && Validator.TopologyOf(lib, config) == g.topo
    requires Holds(lib, objects, doc, g) && forall h :: FileKey(h, draws.id) !in objects
    ensures !RunExcuse(lib, objects, config, RotateNone, draws, e)
  {
    hide ValidConfig, AllFieldsOk, Publishes, GenerationOk, PointerIn, PlanExcuse, Validator.TopologyOf, FileKey,
      HostNames;
    NoPlanExcuse(lib, objects, g, draws.entropy, doc, e);
  }

  lemma HeldIsStart(lib: Library, objects: Objects, firstRevision: string, doc: CurrentJson, g: Generation,
                    baseline: CurrentJson)
    requires Holds(lib, objects, doc, g) && StartsFrom(objects, firstRevision, baseline)
    ensures baseline == doc
  {
    hide PointerIn, Publishes, GenerationOk, ListingOf;
  }

  /** A second run over the same topology succeeds, uploads nothing, creates no generation, and leaves the same
      generation published under a new revision. */
  method ApplyAgain(lib: Library, storage: Storage, config: TopologyConfig, grace: Time, draws: Draws, now: Time,
                    ghost doc: CurrentJson, ghost g: Generation)
    returns (r: Result<ApplyReport, ApplyError>)
    requires storage.Valid() && storage.IsCalm() && DrawsOk(draws) && forall h :: FileKey(h, draws.id) !in storage.objects
    requires ValidConfig(lib, config) && AllFieldsOk(lib, config.nodes) && Validator.TopologyOf(lib, config) == g.topo
    requires Holds(lib, storage.objects, doc, g)
    modifies storage
    ensures storage.Valid() && r.Ok?
    ensures r.value.newGenerationId == None && !r.value.published && r.value.uploaded == []
    ensures CURRENT_JSON_KEY in storage.objects
    ensures storage.objects[CURRENT_JSON_KEY].content
         == Document(CurrentJson(SCHEMA_VERSION, draws.revision, doc.current, doc.previous))
    ensures Publishes(lib, storage.objects, storage.objects[CURRENT_JSON_KEY].content.doc, g)
  {
    hide ValidConfig, AllFieldsOk, Publishes, GenerationOk, IsPrepared, RunExcuse, PlanOf, FilesStored, OnlyDoomedGone,
      KeptAll, IsCommitted, CleanupOk, Validator.TopologyOf, FileKey, Holds, StartsFrom, SameFiles;
    ghost var before := storage.objects;
    ghost var stored, p;
    r, stored, p := ApplyRun.Run(lib, storage, config, Options(false, RotateNone, grace), draws, now);
    if r.Err? {
      NoRunExcuse(lib, before, config, draws, doc, g, r.error);
      assert false;
    }
    HeldIsStart(lib, before, draws.firstRevision, doc, g, p.baseline);
    Held(lib, before, doc, g);
    SameTopologySameFiles(lib, before, g, draws, stored, p);
    RunPublishesItsGeneration(lib, before, storage.objects, g, g.topo, RotateNone, stored, p, draws, now, grace);
    RefreshedPointer(p, draws);
  }

  lemma Held(lib: Library, objects: Objects, doc: CurrentJson, g: Generation)
    requires Holds(lib, objects, doc, g)
    ensures Publishes(lib, objects, doc, g) && GenerationOk(lib, g)
  {
    hide Publishes, GenerationOk, PointerIn;
  }

  lemma RefreshedPointer(p: Prepared, draws: Draws)
    ensures PlanOf(p, draws).Refresh? ==>
              PlanOf(p, draws).intended
              == CurrentJson(SCHEMA_VERSION, draws.revision, p.baseline.current, p.baseline.previous)
  {
  }

  // -------------------------------------------------------------------
  // From an empty bucket on
  // -------------------------------------------------------------------

  /** What a run may find: a bucket that publishes `g`, or one in which nothing was published yet, with an empty
      pointer or none. `doc` is the pointer it starts from. */
  ghost predicate Settled(lib: Library, objects: Objects, firstRevision: string, doc: CurrentJson, g: Generation) {
    StartsFrom(objects, firstRevision, doc) && Refers(lib, objects, doc, g) && GenerationOk(lib, g)
  }

  lemma EmptyIsSettled(lib: Library, objects: Objects, firstRevision: string)
    requires CURRENT_JSON_KEY !in objects && ListingOf(objects) == []
    ensures Settled(lib, objects, firstRevision, Empty(firstRevision), NOTHING)
  {
    hide GenerationOk, ListingOf;
    NothingIsOk(lib, NOTHING.topo);
  }

  lemma HeldIsSettled(lib: Library, objects: Objects, firstRevision: string, doc: CurrentJson, g: Generation)
    requires Holds(lib, objects, doc, g)
    ensures Settled(lib, objects, firstRevision, doc, g)
  {
    hide GenerationOk, ListingOf, PointerIn;
  }

  lemma DesiredFilesOk(lib: Library, config: TopologyConfig, files: map<string, string>)
    requires ValidConfig(lib, config)
    ensures AllFieldsOk(lib, config.nodes)
    ensures (forall h :: h in files <==> h in Names(Validator.TopologyOf(lib, config).nodes)) ==>
              Protocol.DesiredFiles(files)
  {
    TopologyNames(lib, config);
    if forall h :: h in files <==> h in Names(Validator.TopologyOf(lib, config).nodes) {
      assert files.Keys == HostNames(config);
      HostCount(config);
      NamesAreValid(lib, config);
    }
  }

  lemma NamesAreValid(lib: Library, config: TopologyConfig)
    requires ValidConfig(lib, config)
    ensures forall h :: h in HostNames(config) ==> Hostname.IsValid(h)
    ensures HostNames(config) != {}
  {
    hide Hostname.IsValid, FieldsOk, FleetOk;
    assert config.nodes[0].hostname in HostNames(config);
  }

  lemma HostCount(config: TopologyConfig)
    ensures |HostNames(config)| <= |config.nodes|
  {
    PrefixCount(config, |config.nodes|);
    assert HostNames(config) == set i | 0 <= i < |config.nodes| :: config.nodes[i].hostname;
  }

  lemma {:induction false} PrefixCount(config: TopologyConfig, n: nat)
    requires n <= |config.nodes|
    ensures |set i | 0 <= i < n :: config.nodes[i].hostname| <= n
  {
    if n > 0 {
      PrefixCount(config, n - 1);
      var fewer := set i | 0 <= i < n - 1 :: config.nodes[i].hostname;
      assert (set i | 0 <= i < n :: config.nodes[i].hostname) == fewer + {config.nodes[n - 1].hostname};
    }
  }

  lemma IntendedIsRead(lib: Library, objects: Objects, config: TopologyConfig, rotate: RotateSelection,
                       stored: OldConfigs, p: Prepared, draws: Draws)
    requires ValidConfig(lib, config) && AllFieldsOk(lib, config.nodes)
    requires IsPrepared(lib, objects, Validator.TopologyOf(lib, config), rotate, draws.entropy, stored, p)
    requires DrawsOk(draws) && draws.id !in Retained(p.baseline)
    ensures PointerIn(Document(PlanOf(p, draws).intended)) == Ok(PlanOf(p, draws).intended)
  {
    hide ValidConfig, AllFieldsOk, Validator.TopologyOf, IsPrepared, IsValid, Base32.IsCanonical, Protocol.PlanFor,
      Retained, Protocol.DesiredFiles;
    DesiredFilesOk(lib, config, p.files);
    RenderedFile(lib, objects, Validator.TopologyOf(lib, config), rotate, draws.entropy, stored, p);
    ProtocolLanding.IntendedValid(p.baseline, p.files, draws.id, draws.revision);
  }

  /** A successful calm run from a settled bucket leaves its generation published, and that generation continues
      the key history. */
  lemma RunEndsHeld(lib: Library, before: Objects, after: Objects, g: Generation, config: TopologyConfig,
                    rotate: RotateSelection, stored: OldConfigs, p: Prepared, draws: Draws, now: Time, grace: Time)
    requires ValidConfig(lib, config) && AllFieldsOk(lib, config.nodes)
    requires Settled(lib, before, draws.firstRevision, p.baseline, g)
    requires IsPrepared(lib, before, Validator.TopologyOf(lib, config), rotate, draws.entropy, stored, p)
    requires DrawsOk(draws) && draws.id !in Retained(p.baseline)
    requires EntropyOk(lib, g, Validator.TopologyOf(lib, config), draws.entropy)
    requires FilesStored(after, PlanOf(p, draws)) && OnlyDoomedGone(before, after, PlanOf(p, draws).intended, now, grace)
    requires CURRENT_JSON_KEY in after && after[CURRENT_JSON_KEY].content == Document(PlanOf(p, draws).intended)
    ensures var topo := Validator.TopologyOf(lib, config);
            && Holds(lib, after, PlanOf(p, draws).intended, NextGeneration(topo, p))
            && Produces(lib, g, KeyTheorems.Run(topo, stored, rotate, draws.entropy), NextGeneration(topo, p))
  {
    hide ValidConfig, AllFieldsOk, Publishes, GenerationOk, IsPrepared, PlanOf, FilesStored, OnlyDoomedGone, Produces,
      NextGeneration, Validator.TopologyOf, StartsFrom, PointerIn, Retained, EntropyOk, Fleet.WellFormed;
    TopologyNames(lib, config);
    var topo := Validator.TopologyOf(lib, config);
    IntendedIsRead(lib, before, config, rotate, stored, p, draws);
    PreparedProduces(lib, before, g, topo, rotate, draws.entropy, stored, p);
    RunPublishesItsGeneration(lib, before, after, g, topo, rotate, stored, p, draws, now, grace);
  }

  /** The only reasons to fail that are left when the bucket is settled: the input, or a file over the size limit. */
  ghost predicate InputAtFault(lib: Library, config: TopologyConfig, rotate: RotateSelection, e: ApplyError) {
    || (e.Invalid? && !ValidConfig(lib, config))
    || (e.UnknownRotateHostname? && rotate.RotateNamed? && e.hostname in rotate.hosts && e.hostname !in HostNames(config))
    || (e.Unrenderable? && e.defect.OversizedFile? && e.defect.hostname in HostNames(config)
        && e.defect.size > MAX_CONFIG_BYTES)
  }

  lemma RenderFailures(lib: Library, topo: ValidatedTopology, keys: ResolvedKeys)
    requires Fleet.WellFormed(lib, topo) && KeysOk(lib, topo, keys)
    ensures FailsBySize(lib, topo, keys)
  {
    hide Fleet.WellFormed, KeysOk, Rendered, Parse, FileText;
    forall h | h in Names(topo.nodes) && Rendered(lib, topo, keys, h).Err?
      ensures OverLimit(Rendered(lib, topo, keys, h).error, h)
    {
      var i := NodeAt(topo, h);
      RenderingSucceeds(lib, topo, keys, i);
    }
  }

  lemma OnlySizeFails(lib: Library, objects: Objects, g: Generation, topo: ValidatedTopology, rotate: RotateSelection,
                      entropy: Entropy, doc: CurrentJson, e: ApplyError)
    requires GenerationOk(lib, g) && Refers(lib, objects, doc, g) && Fleet.WellFormed(lib, topo)
    requires EntropyOk(lib, g, topo, entropy) && PlanExcuse(lib, objects, topo, rotate, entropy, doc, e)
    ensures e.Unrenderable? && e.defect.OversizedFile? && e.defect.hostname in Names(topo.nodes)
    ensures e.defect.size > MAX_CONFIG_BYTES
  {
    hide GenerationOk, Refers, IsFetched, ResolvesTo, Rendered, Fetched, Justified, FileIn, EntropyOk, Fleet.WellFormed,
      KeysOk, NextKeys, Names, Step;
    forall h | Lists(doc.current, h) ensures FileIn(lib, objects, doc.current.value, h).Ok? {
      PublishedIsReadable(lib, objects, doc, g, h);
    }
    forall stored | IsFetched(lib, objects, doc.current, Names(topo.nodes), stored)
      ensures forall error :: !Justified(lib, topo, stored, rotate, entropy, error)
      ensures forall keys :: ResolvesTo(lib, topo, stored, rotate, entropy, keys) ==> FailsBySize(lib, topo, keys)
    {
      ResolvedFilesFail(lib, objects, g, topo, rotate, entropy, doc, stored);
    }
  }

  /** A file that cannot be rendered is too large. */
  ghost predicate FailsBySize(lib: Library, topo: ValidatedTopology, keys: ResolvedKeys) {
    forall h :: h in Names(topo.nodes) && Rendered(lib, topo, keys, h).Err? ==>
      OverLimit(Rendered(lib, topo, keys, h).error, h)
  }

  predicate OverLimit(defect: RenderError, h: string) {
    defect.OversizedFile? && defect.hostname == h && defect.size > MAX_CONFIG_BYTES
  }

  lemma ResolvedFilesFail(lib: Library, objects: Objects, g: Generation, topo: ValidatedTopology,
                          rotate: RotateSelection, entropy: Entropy, doc: CurrentJson, stored: OldConfigs)
    requires GenerationOk(lib, g) && Refers(lib, objects, doc, g) && Fleet.WellFormed(lib, topo)
    requires EntropyOk(lib, g, topo, entropy) && IsFetched(lib, objects, doc.current, Names(topo.nodes), stored)
    ensures forall error :: !Justified(lib, topo, stored, rotate, entropy, error)
    ensures forall keys :: ResolvesTo(lib, topo, stored, rotate, entropy, keys) ==> FailsBySize(lib, topo, keys)
  {
    hide GenerationOk, Refers, IsFetched, ResolvesTo, Rendered, Fetched, Justified, EntropyOk, Fleet.WellFormed,
      KeysOk, NextKeys, Names, FileIn;
    ReferredIsFetched(lib, objects, doc, g, topo, stored);
    KeysAreConserved(lib, g, topo, stored, rotate, entropy);
    NextKeysAreValid(lib, g, topo, stored, rotate, entropy);
    forall keys | ResolvesTo(lib, topo, stored, rotate, entropy, keys) ensures FailsBySize(lib, topo, keys) {
      ResolutionIsUnique(lib, topo, stored, rotate, entropy, keys, NextKeys(lib, g, topo, stored, rotate, entropy));
      RenderFailures(lib, topo, keys);
    }
  }

  /** No state of the bucket that a run can leave makes the next one fail: unreadable or missing files, broken keys
      and one-sided edges cannot happen. */
  lemma OnlyInputFails(lib: Library, objects: Objects, config: TopologyConfig, rotate: RotateSelection, draws: Draws,
                       doc: CurrentJson, g: Generation, e: ApplyError)
    requires Settled(lib, objects, draws.firstRevision, doc, g) && forall h :: FileKey(h, draws.id) !in objects
    requires ValidConfig(lib, config) ==>
               AllFieldsOk(lib, config.nodes) && EntropyOk(lib, g, Validator.TopologyOf(lib, config), draws.entropy)
    requires RunExcuse(lib, objects, config, rotate, draws, e)
    ensures InputAtFault(lib, config, rotate, e)
  {
    hide ValidConfig, AllFieldsOk, Refers, GenerationOk, PointerIn, PlanExcuse, Validator.TopologyOf, FileKey,
      HostNames, EntropyOk, ListingOf;
    if ValidConfig(lib, config) && PrepareExcuse(lib, objects, Validator.TopologyOf(lib, config), rotate, draws, e) {
      TopologyNames(lib, config);
      var baseline :| StartsFrom(objects, draws.firstRevision, baseline)
        && PlanExcuse(lib, objects, Validator.TopologyOf(lib, config), rotate, draws.entropy, baseline, e);
      assert baseline == doc;
      OnlySizeFails(lib, objects, g, Validator.TopologyOf(lib, config), rotate, draws.entropy, doc, e);
    }
  }

  /** A run that failed leaves the bucket settled as it was. */
  lemma StillSettled(lib: Library, before: Objects, after: Objects, firstRevision: string, doc: CurrentJson, g: Generation)
    requires Settled(lib, before, firstRevision, doc, g) && OnlyStarted(before, after, firstRevision)
    requires Base32.IsCanonical(firstRevision)
    ensures Settled(lib, after, firstRevision, doc, g)
  {
    hide GenerationOk, ListingOf, Base32.IsCanonical, FileKey, TextOf;
    EmptyIsValid(firstRevision);
    SameListing(before, after);
    hide IsValid;
    if doc.current.Some? {
      forall h | h in Names(g.topo.nodes) ensures FilePublished(lib, after, doc.current.value, g, h) {
        KeyOfFile(h, doc.current.value.id);
        assert FilePublished(lib, before, doc.current.value, g, h);
      }
    }
  }

  lemma SameListing(before: Objects, after: Objects)
    requires SameFiles(before, after)
    ensures ListingOf(after) == ListingOf(before)
  {
    NoPointerListed();
    hide Order.Less, HasPrefix;
    ListingIsUnique(ListingOf(after), ListingOf(before), before);
  }

  lemma NoPointerListed()
    ensures !HasPrefix(CURRENT_JSON_KEY, NODES_PREFIX)
  {
    if HasPrefix(CURRENT_JSON_KEY, NODES_PREFIX) {
      PointerIsNotANode(CURRENT_JSON_KEY);
    }
  }

  /** One run from a settled bucket: success leaves the desired generation published, with the key history
      continued; failure is the input's fault and leaves the bucket settled. */
  method ApplySettled(lib: Library, storage: Storage, config: TopologyConfig, rotate: RotateSelection, grace: Time,
                      draws: Draws, now: Time, ghost doc: CurrentJson, ghost g: Generation)
    returns (r: Result<ApplyReport, ApplyError>, ghost next: Generation, ghost stored: OldConfigs)
    requires storage.Valid() && storage.IsCalm() && DrawsOk(draws)
    requires Settled(lib, storage.objects, draws.firstRevision, doc, g)
    requires draws.id !in Retained(doc) && forall h :: FileKey(h, draws.id) !in storage.objects
    requires ValidConfig(lib, config) ==>
               AllFieldsOk(lib, config.nodes) && EntropyOk(lib, g, Validator.TopologyOf(lib, config), draws.entropy)
    modifies storage
    ensures storage.Valid() && storage.IsCalm()
    ensures r.Ok? ==>
              && ValidConfig(lib, config) && AllFieldsOk(lib, config.nodes)
              && next.topo == Validator.TopologyOf(lib, config)
              && Produces(lib, g, KeyTheorems.Run(next.topo, stored, rotate, draws.entropy), next)
    ensures r.Ok? ==>
              && CURRENT_JSON_KEY in storage.objects && storage.objects[CURRENT_JSON_KEY].content.Document?
              && Holds(lib, storage.objects, storage.objects[CURRENT_JSON_KEY].content.doc, next)
    ensures r.Ok? ==>
              forall revision ::
                Settled(lib, storage.objects, revision, storage.objects[CURRENT_JSON_KEY].content.doc, next)
    ensures r.Err? ==> InputAtFault(lib, config, rotate, r.error)
    ensures r.Err? ==> Settled(lib, storage.objects, draws.firstRevision, doc, g)
    ensures OnlyFilesAdded(old(storage.objects), storage.objects, draws.id)
  {
    hide ValidConfig, AllFieldsOk, Publishes, GenerationOk, IsPrepared, RunExcuse, PlanOf, FilesStored, OnlyDoomedGone,
      KeptAll, IsCommitted, CleanupOk, Validator.TopologyOf, FileKey, Holds, StartsFrom, SameFiles, Settled, EntropyOk,
      Produces, Retained, OnlyFilesAdded, OnlyStarted;
    ghost var before := storage.objects;
    ghost var p;
    next := g;
    r, stored, p := ApplyRun.Run(lib, storage, config, Options(false, rotate, grace), draws, now);
    if r.Err? {
      OnlyInputFails(lib, before, config, rotate, draws, doc, g, r.error);
      StillSettled(lib, before, storage.objects, draws.firstRevision, doc, g);
    } else {
      SettledStart(lib, before, draws.firstRevision, doc, g, p.baseline);
      RunEndsHeld(lib, before, storage.objects, g, config, rotate, stored, p, draws, now, grace);
      next := NextGeneration(Validator.TopologyOf(lib, config), p);
      forall revision ensures Settled(lib, storage.objects, revision, PlanOf(p, draws).intended, next) {
        HeldIsSettled(lib, storage.objects, revision, PlanOf(p, draws).intended, next);
      }
    }
  }

  lemma SettledStart(lib: Library, objects: Objects, firstRevision: string, doc: CurrentJson, g: Generation,
                     baseline: CurrentJson)
    requires Settled(lib, objects, firstRevision, doc, g) && StartsFrom(objects, firstRevision, baseline)
    ensures baseline == doc
  {
    hide PointerIn, Refers, GenerationOk, ListingOf;
  }

  /** Files of another generation were not there before, and are not there now. */
  lemma StillNew(before: Objects, after: Objects, id: string, other: string)
    requires OnlyFilesAdded(before, after, id) && Base32.IsCanonical(id) && Base32.IsCanonical(other) && id != other
    requires forall h :: FileKey(h, other) !in before
    ensures forall h :: FileKey(h, other) !in after
  {
    hide Base32.IsCanonical, FileKey;
    forall h ensures FileKey(h, other) !in after {
      if FileKey(h, other) in after {
        KeyOfFile(h, other);
        var g :| FileKey(h, other) == FileKey(g, id);
        SameId(h, g, other, id);
      }
    }
  }

  lemma SameId(g: string, h: string, a: string, b: string)
    requires FileKey(g, a) == FileKey(h, b) && Base32.IsCanonical(a) && Base32.IsCanonical(b)
    ensures a == b
  {
    assert |a| == |b|;
    hide Base32.IsCanonical, FileKey;
    var x := KeyEnd(g, a);
    var y := KeyEnd(h, b);
    SameEnd(x, y, a + SUFFIX, b + SUFFIX);
    assert a == (a + SUFFIX)[..|a|] && b == (b + SUFFIX)[..|b|];
  }

  lemma KeyEnd(h: string, id: string) returns (front: string)
    ensures FileKey(h, id) == front + (id + SUFFIX)
  {
    front := NODES_PREFIX + (h + "/");
    var end := id + SUFFIX;
    assert FileKey(h, id) == NODES_PREFIX + (h + ("/" + end));
  }

  lemma SameEnd(x: string, y: string, a: string, b: string)
    requires x + a == y + b && |a| == |b|
    ensures a == b
  {
    assert a == (x + a)[|x|..] && b == (y + b)[|y|..];
  }

  lemma NoFilesListed(objects: Objects, id: string)
    requires ListingOf(objects) == []
    ensures forall h :: FileKey(h, id) !in objects
  {
    hide Order.Less, HasPrefix;
    forall h ensures FileKey(h, id) !in objects {
      NodeKeyHasPrefix(Key(h, id));
      assert IsListing(ListingOf(objects), objects);
    }
  }

  /** The first publication and a second run over the same topology: from an empty bucket the first run can fail
      only by an unknown name to rotate or by the size of a file; if it succeeds, so does the second, which creates no generation and leaves the
      first run's generation published. */
  method FirstThenAgain(lib: Library, storage: Storage, config: TopologyConfig, rotate: RotateSelection, grace: Time,
                        first: Draws, second: Draws, now: Time, later: Time)
    returns (a: Result<ApplyReport, ApplyError>, b: Result<ApplyReport, ApplyError>, ghost g: Generation)
    requires storage.Valid() && storage.IsCalm() && DrawsOk(first) && DrawsOk(second) && second.id != first.id
    requires CURRENT_JSON_KEY !in storage.objects && ListingOf(storage.objects) == []
    requires ValidConfig(lib, config) && AllFieldsOk(lib, config.nodes)
    requires EntropyOk(lib, NOTHING, Validator.TopologyOf(lib, config), first.entropy)
    modifies storage
    ensures storage.Valid()
    ensures a.Err? ==> InputAtFault(lib, config, rotate, a.error) && b == a
    ensures a.Ok? ==>
              && b.Ok? && b.value.newGenerationId == None && !b.value.published && b.value.uploaded == []
              && g.topo == Validator.TopologyOf(lib, config)
              && CURRENT_JSON_KEY in storage.objects && storage.objects[CURRENT_JSON_KEY].content.Document?
              && Publishes(lib, storage.objects, storage.objects[CURRENT_JSON_KEY].content.doc, g)
  {
    hide ValidConfig, AllFieldsOk, Publishes, GenerationOk, Validator.TopologyOf, FileKey, Holds, EntropyOk, Settled,
      Produces, OnlyFilesAdded, ListingOf, HostNames, Base32.IsCanonical;
    ghost var before := storage.objects;
    EmptyIsSettled(lib, before, first.firstRevision);
    NoFilesListed(before, first.id);
    NoFilesListed(before, second.id);
    ghost var stored;
    a, g, stored := ApplySettled(lib, storage, config, rotate, grace, first, now, Empty(first.firstRevision), NOTHING);
    if a.Err? {
      return a, a, g;
    }
    StillNew(before, storage.objects, first.id, second.id);
    b := ApplyAgain(lib, storage, config, grace, second, later, storage.objects[CURRENT_JSON_KEY].content.doc, g);
  }
}
