/** One `apply` run from configuration to report, and what it promises: it deletes no file of the pointer that
    it intended (another writer may have replaced that pointer since; what then holds of the bucket is the
    protocol's matter), success means committed, a dry run writes nothing and reports the same, and every
    failure has its reason when no request fails. */
module ApplyRun {
  import opened Outcomes
  import opened Discovery
  import opened Lib
  import opened Order
  import opened Topology
  import opened Validation
  import opened KeyResolution
  import opened Bucket
  import opened Retention
  import opened Publish
  import opened Apply
  import Base32
  import Fleet
  import Hostname
  import Protocol
  import Validator

  /** The plan of a prepared run: refresh the revision, or publish a new generation. */
  function PlanOf(p: Prepared, draws: Draws): Protocol.Plan {
    Protocol.PlanFor(p.baseline, p.files, draws.id, draws.revision)
  }

  // -------------------------------------------------------------------
  // Uploading and committing
  // -------------------------------------------------------------------

  /** Every file of the plan is in the bucket. */
  ghost predicate FilesStored(objects: Objects, plan: Protocol.Plan) {
    plan.Publish? ==> forall h :: h in plan.files ==> HasFile(objects, h, plan.id, plan.files[h])
  }

  lemma SameFilesUploadNothing(before: Objects, after: Objects, id: string, hosts: seq<string>)
    requires SameFiles(before, after)
    ensures OnlyUploaded(before, after, id, hosts)
  {
  }

  lemma UploadedThenSame(a: Objects, b: Objects, c: Objects, id: string,
                         hosts: seq<string>, plan: Protocol.Plan)
    requires OnlyUploaded(a, b, id, hosts) && SameFiles(b, c) && FilesStored(b, plan)
    ensures OnlyUploaded(a, c, id, hosts) && FilesStored(c, plan)
  {
    hide FileKey;
    if plan.Publish? {
      forall h | h in plan.files ensures HasFile(c, h, plan.id, plan.files[h]) {
        KeyOfFile(h, plan.id);
      }
    }
  }

  /** Upload, then commit; a dry run does neither. */
  method CommitRun(storage: Storage, hosts: seq<string>, dryRun: bool, draws: Draws, p: Prepared)
    returns (r: Result<(), ApplyError>)
    requires storage.Valid() && forall h :: h in hosts <==> h in p.files
    requires forall i, j :: 0 <= i < j < |hosts| ==> hosts[i] != hosts[j]
    requires !dryRun ==> NamesPointer(storage, p.etag, p.baseline) && CURRENT_JSON_KEY in storage.objects
    modifies storage
    ensures storage.Valid() && OnlyReplaces(storage, PlanOf(p, draws).intended, p.baseline.revision)
    ensures OnlyUploaded(old(storage.objects), storage.objects, draws.id, hosts)
    ensures PlanOf(p, draws).Refresh? ==> SameFiles(old(storage.objects), storage.objects)
    ensures dryRun ==> r.Ok? && storage.objects == old(storage.objects) && storage.installs == old(storage.installs)
    ensures r.Ok? && !dryRun ==>
              IsCommitted(storage, PlanOf(p, draws).intended) && FilesStored(storage.objects, PlanOf(p, draws))
    ensures old(storage.IsCalm()) ==> storage.IsCalm()
    ensures old(storage.IsCalm()) && !dryRun && old(storage.objects)[CURRENT_JSON_KEY].etag == p.etag ==>
              && (r.Ok? ==> CURRENT_JSON_KEY in storage.objects
                            && storage.objects[CURRENT_JSON_KEY].content == Document(PlanOf(p, draws).intended))
              && (r.Err? ==> exists h :: h in hosts && r.error == GenerationIdCollision(h)
                                         && FileKey(h, draws.id) in old(storage.objects))
  {
    hide FileKey, OnlyUploaded, HasFile, Protocol.Unchanged, ReplacesRevision;
    ghost var before := storage.objects;
    var plan := PlanOf(p, draws);
    SameFilesUploadNothing(before, before, draws.id, hosts);
    if dryRun {
      return Ok(());
    }
    if plan.Publish? {
      var uploaded := UploadAll(storage, draws.id, p.files, hosts);
      if uploaded.Err? {
        return Err(uploaded.error);
      }
    }
    ghost var middle := storage.objects;
    r := CommitPointer(storage, p.baseline, p.etag, plan.intended);
    UploadedThenSame(before, middle, storage.objects, draws.id, hosts, plan);
  }

  // -------------------------------------------------------------------
  // The run
  // -------------------------------------------------------------------

  /** What the report says of a prepared run. */
  ghost predicate ReportOk(topo: ValidatedTopology, config: TopologyConfig, dryRun: bool, draws: Draws, p: Prepared,
                           report: ApplyReport)
  {
    var publishes := PlanOf(p, draws).Publish?;
    && report.emptyMasterList == (config.master == [])
    && report.reused == p.resolution.reused && report.freshlyKeyed == p.resolution.freshlyKeyed
    && report.newGenerationId == (if publishes then Some(draws.id) else None)
    && report.uploaded == (if publishes then Names(topo.nodes) else [])
    && report.published == (publishes && !dryRun)
  }

  /** The deletions that the report should list, from the bucket as the run found it. */
  ghost predicate CleanupOk(objects: Objects, intended: CurrentJson, now: Time, grace: Time,
                            report: ApplyReport)
  {
    var full := FullReport(ListingOf(objects), objects, intended, now, grace);
    && report.cleanupError == None
    && report.cleanupDeleted == full.deleted && report.cleanupSkipped == full.skippedWithinGrace
  }

  /** Why a run may fail when no request fails and nobody interferes. */
  ghost predicate RunExcuse(lib: Library, objects: Objects, config: TopologyConfig,
                            rotate: RotateSelection, draws: Draws, e: ApplyError)
  {
    || (e.Invalid? && !ValidConfig(lib, config))
    || (e.UnknownRotateHostname? && rotate.RotateNamed? && e.hostname in rotate.hosts && e.hostname !in HostNames(config))
    || (e.GenerationIdCollision? && FileKey(e.hostname, draws.id) in objects)
    || (ValidConfig(lib, config) && AllFieldsOk(lib, config.nodes)
        && PrepareExcuse(lib, objects, Validator.TopologyOf(lib, config), rotate, draws, e))
  }

  lemma DoomedAfterUpload(a: Objects, b: Objects, c: Objects,
                          id: string, hosts: seq<string>, pointer: CurrentJson, now: Time, grace: Time)
    requires OnlyUploaded(a, b, id, hosts) && OnlyDoomedGone(b, c, pointer, now, grace)
    ensures OnlyDoomedGone(a, c, pointer, now, grace)
  {
    hide Classify, HasPrefix;
  }

  /** Whatever was added is a file of generation `id`. */
  ghost predicate OnlyFilesAdded(before: Objects, after: Objects, id: string) {
    forall k :: k in after && k !in before && k != CURRENT_JSON_KEY ==> exists h :: k == FileKey(h, id)
  }

  lemma UploadedThenCleaned(a: Objects, b: Objects, c: Objects, id: string, hosts: seq<string>)
    requires OnlyUploaded(a, b, id, hosts)
    ensures OnlyFilesAdded(a, b, id)
    ensures NothingAdded(b, c) ==> OnlyFilesAdded(a, c, id)
  {
    hide FileKey;
  }

  lemma PlanPointsAtItsFiles(p: Prepared, draws: Draws)
    ensures PlanOf(p, draws).Publish? ==>
              draws.id in Retained(PlanOf(p, draws).intended) && PlanOf(p, draws).id == draws.id
              && PlanOf(p, draws).files == p.files
  {
  }

  lemma HostKeyOk(lib: Library, topo: ValidatedTopology, h: string, id: string)
    requires Fleet.WellFormed(lib, topo) && h in Names(topo.nodes) && Base32.IsCanonical(id)
    ensures KeyOk(Key(h, id))
  {
    hide FleetOk, Base32.IsCanonical;
    var i :| 0 <= i < |topo.nodes| && Names(topo.nodes)[i] == h;
    assert Fleet.NodeOk(lib, topo.nodes[i]);
    hide Fleet.WellFormed;
  }

  /** What is uploaded belongs to a retained generation. */
  lemma UploadsAreRetained(lib: Library, topo: ValidatedTopology, a: Objects, b: Objects,
                           draws: Draws, p: Prepared)
    requires Fleet.WellFormed(lib, topo) && Base32.IsCanonical(draws.id)
    requires OnlyUploaded(a, b, draws.id, Names(topo.nodes)) && (PlanOf(p, draws).Refresh? ==> SameFiles(a, b))
    ensures OnlyRetainedAdded(a, b, PlanOf(p, draws).intended)
  {
    hide Fleet.WellFormed, NodeObjectKey, ParseNodeKey, Base32.IsCanonical, KeyOk;
    PlanPointsAtItsFiles(p, draws);
    var pointer := PlanOf(p, draws).intended;
    hide PlanOf;
    forall k | k in b && k !in a && k != CURRENT_JSON_KEY
      ensures ParseNodeKey(k).Some? && ParseNodeKey(k).value.id in Retained(pointer)
    {
      var h :| h in Names(topo.nodes) && k == FileKey(h, draws.id);
      HostKeyOk(lib, topo, h, draws.id);
      ParseAfterPrint(Key(h, draws.id));
    }
  }

  /** The new generation survives the cleanup that follows it. */
  lemma NewFilesSurvive(lib: Library, topo: ValidatedTopology, b: Objects, c: Objects,
                        draws: Draws, p: Prepared, now: Time, grace: Time)
    requires Fleet.WellFormed(lib, topo) && Base32.IsCanonical(draws.id) && forall h :: h in p.files ==> h in Names(topo.nodes)
    requires FilesStored(b, PlanOf(p, draws)) && OnlyDoomedGone(b, c, PlanOf(p, draws).intended, now, grace)
    ensures FilesStored(c, PlanOf(p, draws))
  {
    hide Fleet.WellFormed, NodeObjectKey, OnlyDoomedGone, Base32.IsCanonical, KeyOk;
    PlanPointsAtItsFiles(p, draws);
    var plan := PlanOf(p, draws);
    hide PlanOf;
    if plan.Publish? {
      forall h | h in plan.files ensures HasFile(c, h, plan.id, plan.files[h]) {
        HostKeyOk(lib, topo, h, draws.id);
        RetainedFilesSurvive(b, c, plan.intended, now, grace, Key(h, draws.id));
      }
    }
  }

  method CheckRotation(rotate: RotateSelection, hosts: seq<string>) returns (unknown: Option<string>)
    ensures unknown.Some? ==> rotate.RotateNamed? && unknown.value in rotate.hosts && unknown.value !in hosts
    ensures unknown.None? && rotate.RotateNamed? ==> forall h :: h in rotate.hosts ==> h in hosts
  {
    if rotate.RotateNamed? {
      var left := rotate.hosts;
      while left != {}
        invariant left <= rotate.hosts && forall h :: h in rotate.hosts - left ==> h in hosts
        decreases |left|
      {
        var h :| h in left;
        left := left - {h};
        if h !in hosts {
          return Some(h);
        }
      }
    }
    unknown := None;
  }

  lemma TopologyNames(lib: Library, config: TopologyConfig)
    requires ValidConfig(lib, config)
    ensures AllFieldsOk(lib, config.nodes) && Fleet.WellFormed(lib, Validator.TopologyOf(lib, config))
    ensures Ascending(Names(Validator.TopologyOf(lib, config).nodes))
    ensures forall h :: h in Names(Validator.TopologyOf(lib, config).nodes) <==> h in HostNames(config)
  {
    Fleet.ValidatedIsWellFormed(lib, config);
    hide FieldsOk, FleetOk, NodeOf, Hostname.IsValid, Fleet.NodeOk;
    var nodes, sorted := NodesOf(lib, config.nodes), Validator.TopologyOf(lib, config).nodes;
    SortMultiset(nodes);
    SameMembers(sorted, nodes);
    forall h ensures h in Names(sorted) <==> h in HostNames(config) {
      SortedHost(lib, config, nodes, sorted, h);
    }
  }

  lemma SortedHost(lib: Library, config: TopologyConfig, nodes: seq<ValidatedNode>, sorted: seq<ValidatedNode>, h: string)
    requires AllFieldsOk(lib, config.nodes) && nodes == NodesOf(lib, config.nodes)
    requires forall n :: n in sorted <==> n in nodes
    ensures h in Names(sorted) <==> h in HostNames(config)
  {
    hide FieldsOk;
    if h in Names(sorted) {
      var i :| 0 <= i < |sorted| && Names(sorted)[i] == h;
      assert sorted[i] in nodes;
      var k :| 0 <= k < |nodes| && nodes[k] == sorted[i];
      NodeName(lib, config.nodes[k]);
    }
    if h in HostNames(config) {
      var k :| 0 <= k < |config.nodes| && config.nodes[k].hostname == h;
      NodeName(lib, config.nodes[k]);
      assert nodes[k] in sorted;
      var i :| 0 <= i < |sorted| && sorted[i] == nodes[k];
      assert Names(sorted)[i] == h;
    }
  }

  lemma NodeName(lib: Library, n: NodeConfig)
    requires FieldsOk(lib, n)
    ensures NodeOf(lib, n).hostname == n.hostname
  {
  }

  /** Validation and the rotation list. */
  method Desire(lib: Library, config: TopologyConfig, rotate: RotateSelection)
    returns (r: Result<(ValidatedTopology, bool), ApplyError>)
    ensures r.Ok? ==> ValidConfig(lib, config) && AllFieldsOk(lib, config.nodes)
                      && r.value == (Validator.TopologyOf(lib, config), config.master == [])
                      && Fleet.WellFormed(lib, r.value.0) && Ascending(Names(r.value.0.nodes))
    ensures r.Err? ==>
              || (r.error.Invalid? && !ValidConfig(lib, config))
              || (r.error.UnknownRotateHostname? && rotate.RotateNamed? && r.error.hostname in rotate.hosts
                  && r.error.hostname !in HostNames(config))
  {
    hide ValidConfig, AllFieldsOk, Fleet.WellFormed, HostNames;
    var valid := Validator.Validate(lib, config);
    if valid.Err? {
      return Err(Invalid(valid.error));
    }
    TopologyNames(lib, config);
    var unknown := CheckRotation(rotate, Names(valid.value.0.nodes));
    r := if unknown.Some? then Err(UnknownRotateHostname(unknown.value)) else Ok(valid.value);
  }

  ghost predicate KeptAll(before: Objects, after: Objects) {
    forall k :: k in before && k != CURRENT_JSON_KEY ==> k in after && after[k] == before[k]
  }

  lemma UploadKeepsAll(a: Objects, b: Objects, id: string, hosts: seq<string>)
    requires OnlyUploaded(a, b, id, hosts)
    ensures KeptAll(a, b)
  {
  }

  lemma CleanedAlike(lib: Library, topo: ValidatedTopology, a: Objects, b: Objects,
                     draws: Draws, p: Prepared, now: Time, grace: Time)
    requires Fleet.WellFormed(lib, topo) && Base32.IsCanonical(draws.id)
    requires OnlyUploaded(a, b, draws.id, Names(topo.nodes)) && (PlanOf(p, draws).Refresh? ==> SameFiles(a, b))
    ensures FullReport(ListingOf(a), a, PlanOf(p, draws).intended, now, grace)
         == FullReport(ListingOf(b), b, PlanOf(p, draws).intended, now, grace)
  {
    hide Fleet.WellFormed, OnlyUploaded, SameFiles, PlanOf, FullReport, ListingOf;
    UploadsAreRetained(lib, topo, a, b, draws, p);
    DryRunReportIsFaithful(a, b, PlanOf(p, draws).intended, now, grace);
  }

  /** Upload, commit, clean up, report. */
  method Finish(lib: Library, storage: Storage, config: TopologyConfig, topo: ValidatedTopology, opts: Options, draws: Draws,
                now: Time, p: Prepared)
    returns (r: Result<ApplyReport, ApplyError>)
    requires storage.Valid() && Fleet.WellFormed(lib, topo) && Base32.IsCanonical(draws.id)
    requires forall h :: h in Names(topo.nodes) <==> h in p.files
    requires !opts.dryRun ==> NamesPointer(storage, p.etag, p.baseline) && CURRENT_JSON_KEY in storage.objects
    modifies storage
    ensures storage.Valid()
    ensures r.Ok? ==> ReportOk(topo, config, opts.dryRun, draws, p, r.value)
    ensures r.Ok? ==> OnlyDoomedGone(old(storage.objects), storage.objects, PlanOf(p, draws).intended, now, opts.grace)
    ensures r.Err? ==> KeptAll(old(storage.objects), storage.objects)
    ensures r.Ok? && !opts.dryRun ==>
              IsCommitted(storage, PlanOf(p, draws).intended) && FilesStored(storage.objects, PlanOf(p, draws))
    ensures OnlyFilesAdded(old(storage.objects), storage.objects, draws.id)
    ensures opts.dryRun ==> storage.InstallsNothing() && Without(old(storage.objects), storage.objects, [])
    ensures old(storage.IsCalm()) ==> storage.IsCalm()
    ensures old(storage.IsCalm()) && r.Ok? ==>
              CleanupOk(old(storage.objects), PlanOf(p, draws).intended, now, opts.grace, r.value)
    ensures old(storage.IsCalm()) && r.Ok? && !opts.dryRun && old(storage.objects)[CURRENT_JSON_KEY].etag == p.etag ==>
              && CURRENT_JSON_KEY in storage.objects
              && storage.objects[CURRENT_JSON_KEY].content == Document(PlanOf(p, draws).intended)
    ensures old(storage.IsCalm()) && r.Err? && (!opts.dryRun ==> old(storage.objects)[CURRENT_JSON_KEY].etag == p.etag) ==>
              r.error.GenerationIdCollision? && FileKey(r.error.hostname, draws.id) in old(storage.objects)
  {
    hide Fleet.WellFormed, OnlyUploaded, OnlyDoomedGone, SameFiles, FilesStored, FileKey, ListingOf, IsListing, FullReport,
      Without, KeptAll, OnlyFilesAdded, NothingAdded, Protocol.PlanFor, ReplacesRevision, Base32.IsCanonical;
    ghost var before := storage.objects;
    var plan := PlanOf(p, draws);
    var hosts := Names(topo.nodes);
    NamesDiffer(lib, topo);
    var committed := CommitRun(storage, hosts, opts.dryRun, draws, p);
    ghost var middle := storage.objects;
    UploadKeepsAll(before, middle, draws.id, hosts);
    UploadedThenCleaned(before, middle, middle, draws.id, hosts);
    if committed.Err? {
      return Err(committed.error);
    }
    CleanedAlike(lib, topo, before, middle, draws, p, now, opts.grace);
    var cleaned := Cleanup(storage, plan.intended, now, opts.grace, opts.dryRun);
    UploadedThenCleaned(before, middle, storage.objects, draws.id, hosts);
    DoomedAfterUpload(before, middle, storage.objects, draws.id, hosts, plan.intended, now, opts.grace);
    if !opts.dryRun {
      NewFilesSurvive(lib, topo, middle, storage.objects, draws, p, now, opts.grace);
    }
    r := Ok(ApplyReport(
      config.master == [],
      p.resolution.reused,
      p.resolution.freshlyKeyed,
      plan.Publish? && !opts.dryRun,
      if plan.Publish? then Some(draws.id) else None,
      if plan.Publish? then hosts else [],
      if cleaned.Ok? then cleaned.value.deleted else [],
      if cleaned.Ok? then cleaned.value.skippedWithinGrace else [],
      if cleaned.Ok? then None else Some(cleaned.error)));
  }

  lemma NamesDiffer(lib: Library, topo: ValidatedTopology)
    requires Fleet.WellFormed(lib, topo)
    ensures forall i, j :: 0 <= i < j < |topo.nodes| ==> Names(topo.nodes)[i] != Names(topo.nodes)[j]
  {
    hide FleetOk, Fleet.NodeOk, Less;
    forall i, j | 0 <= i < j < |topo.nodes| ensures Names(topo.nodes)[i] != Names(topo.nodes)[j] {
      LessIrreflexive(Names(topo.nodes)[i]);
      assert Less(Names(topo.nodes)[i], Names(topo.nodes)[j]);
    }
  }

  // -------------------------------------------------------------------
  // From start to finish
  // -------------------------------------------------------------------

  lemma SameThenDoomed(a: Objects, b: Objects, c: Objects,
                       pointer: CurrentJson, now: Time, grace: Time)
    requires SameFiles(a, b)
    ensures OnlyDoomedGone(b, c, pointer, now, grace) ==> OnlyDoomedGone(a, c, pointer, now, grace)
    ensures KeptAll(b, c) ==> KeptAll(a, c)
    ensures Without(b, c, []) ==> SameFiles(a, c)
    ensures forall id :: OnlyFilesAdded(b, c, id) ==> OnlyFilesAdded(a, c, id)
  {
    hide Classify, HasPrefix;
  }

  lemma SameCleanup(a: Objects, b: Objects, pointer: CurrentJson, now: Time, grace: Time)
    requires SameFiles(a, b)
    ensures FullReport(ListingOf(a), a, pointer, now, grace) == FullReport(ListingOf(b), b, pointer, now, grace)
  {
    assert OnlyRetainedAdded(a, b, pointer);
    hide FullReport, ListingOf, OnlyRetainedAdded;
    DryRunReportIsFaithful(a, b, pointer, now, grace);
  }

  lemma SameFileKey(a: Objects, b: Objects, h: string, id: string)
    requires SameFiles(a, b)
    ensures FileKey(h, id) in b <==> FileKey(h, id) in a
  {
    hide FileKey;
    KeyOfFile(h, id);
  }

  lemma PreparedFiles(lib: Library, objects: Objects, topo: ValidatedTopology, rotate: RotateSelection,
                      entropy: Entropy, stored: OldConfigs, p: Prepared)
    requires IsPrepared(lib, objects, topo, rotate, entropy, stored, p)
    ensures forall h :: h in Names(topo.nodes) <==> h in p.files
  {
    hide IsValid, IsFetched, ResolvesTo, WithFreshness;
  }

  /** One `apply` run. */
  method Run(lib: Library, storage: Storage, config: TopologyConfig, opts: Options, draws: Draws, now: Time)
    returns (r: Result<ApplyReport, ApplyError>, ghost stored: OldConfigs, ghost p: Prepared)
    requires storage.Valid() && DrawsOk(draws)
    modifies storage
    ensures storage.Valid()
    ensures r.Ok? ==>
              && ValidConfig(lib, config) && AllFieldsOk(lib, config.nodes)
              && IsPrepared(lib, old(storage.objects), Validator.TopologyOf(lib, config), opts.rotate, draws.entropy, stored, p)
              && ReportOk(Validator.TopologyOf(lib, config), config, opts.dryRun, draws, p, r.value)
    ensures r.Ok? ==> OnlyDoomedGone(old(storage.objects), storage.objects, PlanOf(p, draws).intended, now, opts.grace)
    ensures r.Err? ==> KeptAll(old(storage.objects), storage.objects)
    ensures r.Ok? && !opts.dryRun ==>
              IsCommitted(storage, PlanOf(p, draws).intended) && FilesStored(storage.objects, PlanOf(p, draws))
    ensures OnlyFilesAdded(old(storage.objects), storage.objects, draws.id)
    ensures opts.dryRun ==> storage.InstallsNothing() && SameFiles(old(storage.objects), storage.objects)
    ensures old(storage.IsCalm()) && r.Ok? ==>
              && StartsFrom(old(storage.objects), draws.firstRevision, p.baseline)
              && CleanupOk(old(storage.objects), PlanOf(p, draws).intended, now, opts.grace, r.value)
    ensures old(storage.IsCalm()) && r.Ok? && !opts.dryRun ==>
              && CURRENT_JSON_KEY in storage.objects
              && storage.objects[CURRENT_JSON_KEY].content == Document(PlanOf(p, draws).intended)
    ensures old(storage.IsCalm()) ==> storage.IsCalm()
    ensures old(storage.IsCalm()) && r.Err? ==> RunExcuse(lib, old(storage.objects), config, opts.rotate, draws, r.error)
    ensures old(storage.IsCalm()) && r.Err? && !r.error.GenerationIdCollision? ==>
              OnlyStarted(old(storage.objects), storage.objects, draws.firstRevision)
  {
    hide ValidConfig, AllFieldsOk, Fleet.WellFormed, IsPrepared, PrepareExcuse, OnlyDoomedGone, SameFiles, KeptAll, PlanOf,
      FilesStored, FileKey, ListingOf, FullReport, Without, StartsFrom, Validator.TopologyOf, ReportOk, OnlyInitializes,
      HostNames, Base32.IsCanonical, IsCommitted, OnlyFilesAdded, OnlyStarted;
    stored := map[];
    p := Prepared(Empty(""), 0, Resolution(Render.ResolvedKeys(map[], map[]), [], []), map[]);
    ghost var before := storage.objects;
    var desired := Desire(lib, config, opts.rotate);
    if desired.Err? {
      Unchanged(before);
      return Err(desired.error), stored, p;
    }
    var topo := desired.value.0;
    var prepared;
    prepared, stored := PrepareRun(lib, storage, topo, opts.dryRun, opts.rotate, draws);
    ghost var middle := storage.objects;
    Unchanged(middle);
    SameThenDoomed(before, middle, middle, Empty(""), now, opts.grace);
    if prepared.Err? {
      return Err(prepared.error), stored, p;
    }
    p := prepared.value;
    PreparedFiles(lib, before, topo, opts.rotate, draws.entropy, stored, p);
    SameCleanup(before, middle, PlanOf(p, draws).intended, now, opts.grace);
    r := Finish(lib, storage, config, topo, opts, draws, now, prepared.value);
    SameThenDoomed(before, middle, storage.objects, PlanOf(p, draws).intended, now, opts.grace);
    if r.Err? && r.error.GenerationIdCollision? {
      SameFileKey(before, middle, r.error.hostname, draws.id);
    }
  }

  lemma Unchanged(objects: Objects)
    ensures forall id :: OnlyFilesAdded(objects, objects, id) && OnlyStarted(objects, objects, id)
    ensures SameFiles(objects, objects) && KeptAll(objects, objects) && Without(objects, objects, [])
  {
  }

  // -------------------------------------------------------------------
  // Dry runs
  // -------------------------------------------------------------------

  lemma SameStart(objects: Objects, firstRevision: string, a: CurrentJson, b: CurrentJson)
    requires StartsFrom(objects, firstRevision, a) && StartsFrom(objects, firstRevision, b)
    ensures a == b
  {
    hide PointerIn, ListingOf;
  }

  lemma SameStored(lib: Library, objects: Objects, current: Option<GenerationEntry>, hosts: seq<string>,
                   a: OldConfigs, b: OldConfigs)
    requires IsFetched(lib, objects, current, hosts, a) && IsFetched(lib, objects, current, hosts, b)
    ensures a == b
  {
    hide FileIn;
    assert a.Keys == b.Keys;
  }

  /** What a run prepares is determined by the bucket, the topology and the random values. */
  lemma PreparedIsUnique(lib: Library, objects: Objects, topo: ValidatedTopology, rotate: RotateSelection,
                         draws: Draws, a: OldConfigs, p: Prepared, b: OldConfigs, q: Prepared)
    requires StartsFrom(objects, draws.firstRevision, p.baseline) && StartsFrom(objects, draws.firstRevision, q.baseline)
    requires IsPrepared(lib, objects, topo, rotate, draws.entropy, a, p)
    requires IsPrepared(lib, objects, topo, rotate, draws.entropy, b, q)
    ensures p == q.(etag := p.etag)
  {
    hide StartsFrom, IsValid, IsFetched, ResolvesTo, WithFreshness, Render.Rendered;
    SameStart(objects, draws.firstRevision, p.baseline, q.baseline);
    SameStored(lib, objects, p.baseline.current, Names(topo.nodes), a, b);
    ResolutionIsUnique(lib, topo, a, rotate, draws.entropy, p.resolution.keys, q.resolution.keys);
    assert p.files == q.files;
  }

  /** A dry run and a real run from the same bucket, with the same random values and at the same clock, report
      the same, except that only the real one publishes. `a`, `p` and `b`, `q` are what the two runs prepared. */
  lemma DryRunIsFaithful(lib: Library, objects: Objects, config: TopologyConfig, rotate: RotateSelection,
                         draws: Draws, now: Time, grace: Time, a: OldConfigs, p: Prepared, dry: ApplyReport,
                         b: OldConfigs, q: Prepared, actual: ApplyReport)
    requires AllFieldsOk(lib, config.nodes)
    requires StartsFrom(objects, draws.firstRevision, p.baseline) && StartsFrom(objects, draws.firstRevision, q.baseline)
    requires IsPrepared(lib, objects, Validator.TopologyOf(lib, config), rotate, draws.entropy, a, p)
    requires IsPrepared(lib, objects, Validator.TopologyOf(lib, config), rotate, draws.entropy, b, q)
    requires ReportOk(Validator.TopologyOf(lib, config), config, true, draws, p, dry)
    requires ReportOk(Validator.TopologyOf(lib, config), config, false, draws, q, actual)
    requires CleanupOk(objects, PlanOf(p, draws).intended, now, grace, dry)
    requires CleanupOk(objects, PlanOf(q, draws).intended, now, grace, actual)
    ensures dry == actual.(published := false)
  {
    hide StartsFrom, IsPrepared, FullReport, ListingOf, AllFieldsOk, Validator.TopologyOf, Protocol.PlanFor;
    PreparedIsUnique(lib, objects, Validator.TopologyOf(lib, config), rotate, draws, a, p, b, q);
  }
}
