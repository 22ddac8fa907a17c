/** The whole `apply` run, and what it promises about the bucket and its report. */
module Apply {
  import opened Outcomes
  import opened Discovery
  import opened Lib
  import opened Order
  import opened Topology
  import opened Validation
  import opened WgQuick
  import opened Render
  import opened KeyResolution
  import opened Bucket
  import opened Retention
  import opened Publish
  import Base32
  import Renderer
  import WgReader

  datatype Options = Options(dryRun: bool, rotate: RotateSelection, grace: Time)

  /** The random values of one run: key material, the new generation's id, and revisions. */
  datatype Draws = Draws(entropy: Entropy, id: string, revision: string, firstRevision: string)

  predicate DrawsOk(d: Draws) {
    Base32.IsCanonical(d.id) && Base32.IsCanonical(d.revision) && Base32.IsCanonical(d.firstRevision)
  }

  datatype ApplyReport = ApplyReport(
    emptyMasterList: bool,
    reused: seq<string>,
    freshlyKeyed: seq<string>,
    published: bool,
    newGenerationId: Option<string>,
    uploaded: seq<string>,
    cleanupDeleted: seq<string>,
    cleanupSkipped: seq<string>,
    cleanupError: Option<StorageError>)

  // -------------------------------------------------------------------
  // Reading the published files
  // -------------------------------------------------------------------

  /** What reading one published file gives: its digest is checked before it is trusted. */
  function FileIn(lib: Library, objects: Objects, entry: GenerationEntry, h: string)
    : Result<ParsedConfig, ApplyError>
    requires h in entry.nodes
  {
    var key := NodeObjectKey(Key(h, entry.id));
    if key !in objects then Err(MissingReferencedFile(h))
    else
      match objects[key].content
      case Document(_) => Err(FileDigestMismatch(h))
      case Text(t) =>
        if Digest(t) != entry.nodes[h] then Err(FileDigestMismatch(h))
        else
          match Parse(lib, t)
          case Err(e) => Err(UnparsableCurrentConfig(h, e))
          case Ok(c) => Ok(c)
  }

  /** A published file is trusted exactly if it is there, has the recorded digest, and is accepted by the strict reader;
      otherwise the error says which of these failed first. */
  lemma FileIsChecked(lib: Library, objects: Objects, entry: GenerationEntry, h: string)
    requires h in entry.nodes
    ensures var key, r := NodeObjectKey(Key(h, entry.id)), FileIn(lib, objects, entry, h);
            && (forall c: ParsedConfig :: r == Ok(c) <==> IsTrusted(lib, objects, key, entry.nodes[h], c))
            && (r == Err(MissingReferencedFile(h)) <==> key !in objects)
            && (r == Err(FileDigestMismatch(h)) <==> key in objects && objects[key].content != Text(entry.nodes[h].of))
  {
    hide NodeObjectKey, Parse;
  }

  /** The object is text with this digest, and the strict reader makes this of it. */
  predicate IsTrusted(lib: Library, objects: Objects, key: string, digest: Digest, c: ParsedConfig) {
    && key in objects && objects[key].content.Text?
    && Digest(objects[key].content.text) == digest && Parse(lib, objects[key].content.text) == Ok(c)
  }

  predicate Lists(current: Option<GenerationEntry>, h: string) {
    current.Some? && h in current.value.nodes
  }

  /** `stored` holds the published configuration of every listed desired host. */
  ghost predicate IsFetched(lib: Library, objects: Objects, current: Option<GenerationEntry>,
                            hosts: seq<string>, stored: OldConfigs)
  {
    && (forall h :: h in stored <==> h in hosts && Lists(current, h))
    && forall h :: h in stored ==> FileIn(lib, objects, current.value, h) == Ok(stored[h])
  }

  /** Node files are as they were. */
  ghost predicate SameFiles(before: Objects, after: Objects) {
    forall k :: k != CURRENT_JSON_KEY ==> (k in after <==> k in before) && (k in after ==> after[k] == before[k])
  }

  lemma NodeKeyIsNotPointer(k: Key)
    ensures NodeObjectKey(k) != CURRENT_JSON_KEY
  {
    NodeKeyHasPrefix(k);
    PointerIsNotANode(NodeObjectKey(k));
  }

  lemma SameFileIn(lib: Library, before: Objects, after: Objects,
                   entry: GenerationEntry, h: string)
    requires SameFiles(before, after) && h in entry.nodes
    ensures FileIn(lib, after, entry, h) == FileIn(lib, before, entry, h)
  {
    NodeKeyIsNotPointer(Key(h, entry.id));
    hide NodeObjectKey, Parse;
  }

  /** Read one file. */
  method FetchFile(lib: Library, storage: Storage, entry: GenerationEntry, h: string)
    returns (r: Result<ParsedConfig, ApplyError>)
    requires storage.Valid() && h in entry.nodes
    modifies storage
    ensures OnlyRead(storage)
    ensures r.Ok? || !r.error.StorageFailed? ==> r == FileIn(lib, old(storage.objects), entry, h)
    ensures old(storage.IsCalm()) ==> r.Ok? || !r.error.StorageFailed?
  {
    hide Parse, NodeObjectKey;
    NodeKeyIsNotPointer(Key(h, entry.id));
    var got := storage.GetObject(NodeObjectKey(Key(h, entry.id)));
    if got.Err? {
      return Err(StorageFailed(got.error));
    }
    if got.value.None? {
      return Err(MissingReferencedFile(h));
    }
    if got.value.value.content.Document? || Digest(got.value.value.content.text) != entry.nodes[h] {
      return Err(FileDigestMismatch(h));
    }
    var parsed := WgReader.ParseWgQuick(lib, got.value.value.content.text);
    r := if parsed.Err? then Err(UnparsableCurrentConfig(h, parsed.error)) else Ok(parsed.value);
  }

  /** Storage changed, if at all, in ways that concern only the pointer, and not by this run. */
  twostate predicate OnlyRead(storage: Storage)
    reads storage
  {
    && storage.Valid() && storage.Evolves(CURRENT_JSON_KEY) && storage.InstallsNothing()
    && SameFiles(old(storage.objects), storage.objects)
    && (old(storage.IsCalm()) ==> storage.IsCalm() && storage.objects == old(storage.objects))
  }

  lemma NothingFetched(lib: Library, objects: Objects, current: Option<GenerationEntry>)
    ensures IsFetched(lib, objects, current, [], map[])
  {
  }

  lemma FetchedMore(lib: Library, objects: Objects, current: Option<GenerationEntry>, hosts: seq<string>,
                    stored: OldConfigs, h: string, next: OldConfigs)
    requires IsFetched(lib, objects, current, hosts, stored)
    requires if Lists(current, h)
             then FileIn(lib, objects, current.value, h).Ok? && next == stored[h := FileIn(lib, objects, current.value, h).value]
             else next == stored
    ensures IsFetched(lib, objects, current, hosts + [h], next)
  {
    hide FileIn;
  }

  method FetchReusableConfigs(lib: Library, storage: Storage, current: Option<GenerationEntry>, hosts: seq<string>)
    returns (r: Result<OldConfigs, ApplyError>)
    requires storage.Valid()
    modifies storage
    ensures OnlyRead(storage)
    ensures r.Ok? ==> IsFetched(lib, old(storage.objects), current, hosts, r.value)
    ensures r.Err? && !r.error.StorageFailed? ==>
              exists h :: Lists(current, h) && FileIn(lib, old(storage.objects), current.value, h) == Err(r.error)
    ensures r.Err? ==> old(storage.IsCalm()) ==> !r.error.StorageFailed?
  {
    hide FileIn, IsFetched;
    var out: OldConfigs := map[];
    NothingFetched(lib, storage.objects, current);
    for i := 0 to |hosts|
      invariant OnlyRead(storage)
      invariant IsFetched(lib, old(storage.objects), current, hosts[..i], out)
    {
      var h := hosts[i];
      ghost var before := out;
      assert hosts[..i + 1] == hosts[..i] + [h];
      if Lists(current, h) {
        SameFileIn(lib, old(storage.objects), storage.objects, current.value, h);
        var file := FetchFile(lib, storage, current.value, h);
        if file.Err? {
          return Err(file.error);
        }
        out := out[h := file.value];
      }
      FetchedMore(lib, old(storage.objects), current, hosts[..i], before, h, out);
    }
    assert hosts[..|hosts|] == hosts;
    r := Ok(out);
  }

  // -------------------------------------------------------------------
  // Rendering a generation
  // -------------------------------------------------------------------

  /** `files` are the rendered files of all nodes. */
  ghost predicate AllRendered(lib: Library, topo: ValidatedTopology, keys: ResolvedKeys, files: map<string, string>) {
    && (forall h :: h in files <==> h in Names(topo.nodes))
    && forall h :: h in files ==> Rendered(lib, topo, keys, h) == Ok(files[h])
  }

  method RenderAll(lib: Library, topo: ValidatedTopology, keys: ResolvedKeys)
    returns (r: Result<map<string, string>, RenderError>)
    requires Ascending(Names(topo.nodes))
    ensures r.Ok? ==> AllRendered(lib, topo, keys, r.value)
    ensures r.Err? ==> exists h :: h in Names(topo.nodes) && Rendered(lib, topo, keys, h) == Err(r.error)
  {
    hide Rendered;
    var hosts := Names(topo.nodes);
    var files: map<string, string> := map[];
    for i := 0 to |hosts|
      invariant forall h :: h in files <==> h in hosts[..i]
      invariant forall h :: h in files ==> Rendered(lib, topo, keys, h) == Ok(files[h])
    {
      assert hosts[..i + 1] == hosts[..i] + [hosts[i]];
      var text := Renderer.RenderNodeConfig(lib, topo, keys, hosts[i]);
      if text.Err? {
        return Err(text.error);
      }
      files := files[hosts[i] := text.value];
    }
    assert hosts[..|hosts|] == hosts;
    r := Ok(files);
  }

  // -------------------------------------------------------------------
  // Uploading a generation
  // -------------------------------------------------------------------

  function FileKey(h: string, id: string): string {
    NodeObjectKey(Key(h, id))
  }

  ghost predicate IsFileKey(k: string, id: string, hosts: seq<string>) {
    exists h :: h in hosts && k == FileKey(h, id)
  }

  /** Existing objects stay, new ones are files of generation `id`. */
  ghost predicate OnlyUploaded(before: Objects, after: Objects, id: string,
                               hosts: seq<string>)
  {
    && (forall k :: k in before && k != CURRENT_JSON_KEY ==> k in after && after[k] == before[k])
    && forall k :: k in after && k !in before && k != CURRENT_JSON_KEY ==> IsFileKey(k, id, hosts)
  }

  ghost predicate HasFile(objects: Objects, h: string, id: string, body: string) {
    FileKey(h, id) in objects && objects[FileKey(h, id)].content == Text(body)
  }

  /** Uploading one file: it is there afterwards, or something else was there before. */
  method UploadFile(storage: Storage, h: string, id: string, body: string) returns (r: Result<(), ApplyError>)
    requires storage.Valid()
    modifies storage
    ensures Unharmed(storage)
    ensures OnlyUploaded(old(storage.objects), storage.objects, id, [h])
    ensures r.Ok? ==> HasFile(storage.objects, h, id, body)
    ensures old(storage.IsCalm()) && r.Err? ==>
              r.error == GenerationIdCollision(h) && FileKey(h, id) in old(storage.objects)
  {
    hide NodeObjectKey, HasPrefix;
    KeyOfFile(h, id);
    var key := FileKey(h, id);
    hide FileKey;
    var put := storage.PutIfAbsent(key, Text(body));
    assert h in [h];
    if put.Err? {
      return Err(StorageFailed(put.error));
    }
    if put.value.PreconditionFailed? {
      var got := storage.GetObject(key);
      if got.Err? {
        return Err(StorageFailed(got.error));
      }
      if got.value.None? || got.value.value.content != Text(body) {
        return Err(GenerationIdCollision(h));
      }
    }
    r := Ok(());
  }

  lemma UploadedMore(a: Objects, b: Objects, c: Objects, id: string,
                     hosts: seq<string>, h: string)
    requires OnlyUploaded(a, b, id, hosts) && OnlyUploaded(b, c, id, [h])
    ensures OnlyUploaded(a, c, id, hosts + [h])
    ensures forall g, body :: HasFile(b, g, id, body) ==> HasFile(c, g, id, body)
  {
    hide FileKey;
    forall k | k in c && k !in a && k != CURRENT_JSON_KEY ensures IsFileKey(k, id, hosts + [h]) {
      if k in b {
        var g :| g in hosts && k == FileKey(g, id);
        assert g in hosts + [h];
      } else {
        var g :| g in [h] && k == FileKey(g, id);
        assert g in hosts + [h];
      }
    }
    forall g, body | HasFile(b, g, id, body) ensures HasFile(c, g, id, body) {
      KeyOfFile(g, id);
    }
  }

  lemma KeyOfFile(h: string, id: string)
    ensures FileKey(h, id) != CURRENT_JSON_KEY
  {
    NodeKeyIsNotPointer(Key(h, id));
  }

  method UploadAll(storage: Storage, id: string, files: map<string, string>, hosts: seq<string>)
    returns (r: Result<(), ApplyError>)
    requires storage.Valid() && forall h :: h in hosts ==> h in files
    requires forall i, j :: 0 <= i < j < |hosts| ==> hosts[i] != hosts[j]
    modifies storage
    ensures Unharmed(storage)
    ensures OnlyUploaded(old(storage.objects), storage.objects, id, hosts)
    ensures r.Ok? ==> forall h :: h in hosts ==> HasFile(storage.objects, h, id, files[h])
    ensures old(storage.IsCalm()) && r.Err? ==>
              exists h :: h in hosts && r.error == GenerationIdCollision(h) && FileKey(h, id) in old(storage.objects)
  {
    hide FileKey, OnlyUploaded, HasFile;
    ghost var before := storage.objects;
    NothingUploaded(before, id);
    for i := 0 to |hosts|
      invariant Unharmed(storage)
      invariant OnlyUploaded(before, storage.objects, id, hosts[..i])
      invariant forall h :: h in hosts[..i] ==> HasFile(storage.objects, h, id, files[h])
    {
      ghost var middle := storage.objects;
      var h := hosts[i];
      assert hosts[..i + 1] == hosts[..i] + [h];
      FileIsNew(before, middle, id, hosts, i);
      var uploaded := UploadFile(storage, h, id, files[h]);
      UploadedMore(before, middle, storage.objects, id, hosts[..i], h);
      if uploaded.Err? {
        UploadedSome(before, storage.objects, id, hosts, i + 1);
        return Err(uploaded.error);
      }
    }
    assert hosts[..|hosts|] == hosts;
    r := Ok(());
  }

  lemma NothingUploaded(objects: Objects, id: string)
    ensures OnlyUploaded(objects, objects, id, [])
  {
  }

  lemma UploadedSome(a: Objects, b: Objects, id: string, hosts: seq<string>, i: nat)
    requires i <= |hosts| && OnlyUploaded(a, b, id, hosts[..i])
    ensures OnlyUploaded(a, b, id, hosts)
  {
    hide FileKey;
    forall k | k in b && k !in a && k != CURRENT_JSON_KEY ensures IsFileKey(k, id, hosts) {
      var g :| g in hosts[..i] && k == FileKey(g, id);
      assert g in hosts;
    }
  }

  /** A file found in the way was there before the upload began. */
  lemma FileIsNew(before: Objects, middle: Objects, id: string, hosts: seq<string>, i: nat)
    requires i < |hosts| && forall k, l :: 0 <= k < l < |hosts| ==> hosts[k] != hosts[l]
    requires OnlyUploaded(before, middle, id, hosts[..i])
    ensures FileKey(hosts[i], id) in middle ==> FileKey(hosts[i], id) in before
  {
    KeyOfFile(hosts[i], id);
    if FileKey(hosts[i], id) in middle && FileKey(hosts[i], id) !in before {
      var g :| g in hosts[..i] && FileKey(hosts[i], id) == FileKey(g, id);
      var k :| 0 <= k < i && hosts[k] == g;
      SameSuffix(hosts[i], g, id);
    }
  }

  lemma SameSuffix(g: string, h: string, id: string)
    ensures FileKey(g, id) == FileKey(h, id) ==> g == h
  {
    var tail := "/" + (id + SUFFIX);
    assert FileKey(g, id) == NODES_PREFIX + (g + tail) && FileKey(h, id) == NODES_PREFIX + (h + tail);
    assert |FileKey(g, id)| == 6 + |g| + |tail| && |FileKey(h, id)| == 6 + |h| + |tail|;
    assert g == FileKey(g, id)[6..6 + |g|] && h == FileKey(h, id)[6..6 + |h|];
  }

  // -------------------------------------------------------------------
  // Everything before the first upload
  // -------------------------------------------------------------------

  datatype Prepared = Prepared(baseline: CurrentJson, etag: Etag, resolution: Resolution, files: map<string, string>)

  /** The keys and files of a prepared run are those that the published files and the topology determine. */
  ghost predicate IsPrepared(lib: Library, objects: Objects, topo: ValidatedTopology,
                             rotate: RotateSelection, entropy: Entropy, stored: OldConfigs, p: Prepared)
  {
    && IsValid(p.baseline)
    && IsFetched(lib, objects, p.baseline.current, Names(topo.nodes), stored)
    && ResolvesTo(lib, topo, stored, rotate, entropy, p.resolution.keys)
    && p.resolution.reused == WithFreshness(Names(topo.nodes), stored, rotate, false)
    && p.resolution.freshlyKeyed == WithFreshness(Names(topo.nodes), stored, rotate, true)
    && AllRendered(lib, topo, p.resolution.keys, p.files)
  }

  /** The pointer a run starts from: the one in the bucket, or an empty one if the bucket is empty. */
  ghost predicate StartsFrom(objects: Objects, firstRevision: string, baseline: CurrentJson) {
    if CURRENT_JSON_KEY in objects then PointerIn(objects[CURRENT_JSON_KEY].content) == Ok(baseline)
    else ListingOf(objects) == [] && baseline == Empty(firstRevision)
  }

  /** The bucket is as it was, but where there was no pointer there may be an empty one. */
  ghost predicate OnlyStarted(before: Objects, after: Objects, firstRevision: string) {
    && SameFiles(before, after)
    && (CURRENT_JSON_KEY in before ==>
          CURRENT_JSON_KEY in after && after[CURRENT_JSON_KEY] == before[CURRENT_JSON_KEY])
    && (CURRENT_JSON_KEY !in before && CURRENT_JSON_KEY in after ==>
          after[CURRENT_JSON_KEY].content == Document(Empty(firstRevision)) && ListingOf(before) == [])
  }

  /** Why reading the files, resolving or rendering may fail. */
  ghost predicate PlanExcuse(lib: Library, objects: Objects, topo: ValidatedTopology,
                             rotate: RotateSelection, entropy: Entropy, baseline: CurrentJson, e: ApplyError)
  {
    match e
    case Unresolvable(cause) =>
      exists stored :: IsFetched(lib, objects, baseline.current, Names(topo.nodes), stored)
        && Justified(lib, topo, stored, rotate, entropy, cause)
    case Unrenderable(defect) =>
      exists stored, keys, h :: IsFetched(lib, objects, baseline.current, Names(topo.nodes), stored)
        && ResolvesTo(lib, topo, stored, rotate, entropy, keys)
        && h in Names(topo.nodes) && Rendered(lib, topo, keys, h) == Err(defect)
    case _ => exists h :: Lists(baseline.current, h) && FileIn(lib, objects, baseline.current.value, h) == Err(e)
  }

  /** Why a run may fail before it uploads anything, when no request fails and nobody interferes. */
  ghost predicate PrepareExcuse(lib: Library, objects: Objects, topo: ValidatedTopology,
                                rotate: RotateSelection, draws: Draws, e: ApplyError)
  {
    || (CURRENT_JSON_KEY in objects && PointerIn(objects[CURRENT_JSON_KEY].content) == Err(e))
    || (CURRENT_JSON_KEY !in objects && ListingOf(objects) != [] && e == OrphanedStateNoPointer)
    || (exists baseline :: StartsFrom(objects, draws.firstRevision, baseline)
          && PlanExcuse(lib, objects, topo, rotate, draws.entropy, baseline, e))
  }

  lemma FileErrors(lib: Library, objects: Objects, entry: GenerationEntry, h: string)
    requires h in entry.nodes && FileIn(lib, objects, entry, h).Err?
    ensures var e := FileIn(lib, objects, entry, h).error;
            e.MissingReferencedFile? || e.FileDigestMismatch? || e.UnparsableCurrentConfig?
  {
    hide Parse, NodeObjectKey;
  }

  lemma SameFetched(lib: Library, before: Objects, after: Objects,
                    current: Option<GenerationEntry>, hosts: seq<string>, stored: OldConfigs)
    requires SameFiles(before, after) && IsFetched(lib, after, current, hosts, stored)
    ensures IsFetched(lib, before, current, hosts, stored)
  {
    hide FileIn;
    forall h | h in stored ensures FileIn(lib, before, current.value, h) == Ok(stored[h]) {
      SameFileIn(lib, before, after, current.value, h);
    }
  }

  /** Read the pointer and say what it is. */
  method StartRun(storage: Storage, dryRun: bool, firstRevision: string)
    returns (r: Result<(CurrentJson, Etag), ApplyError>)
    requires storage.Valid() && Base32.IsCanonical(firstRevision)
    modifies storage
    ensures storage.Valid() && storage.Evolves(CURRENT_JSON_KEY) && OnlyInitializes(storage, firstRevision)
    ensures SameFiles(old(storage.objects), storage.objects)
    ensures r.Ok? ==> IsValid(r.value.0)
    ensures r.Ok? && !dryRun ==> NamesPointer(storage, r.value.1, r.value.0) && CURRENT_JSON_KEY in storage.objects
    ensures dryRun ==> storage.InstallsNothing()
    ensures old(storage.IsCalm()) ==>
              storage.IsCalm() && (dryRun || r.Err? ==> storage.objects == old(storage.objects))
    ensures old(storage.IsCalm()) ==> OnlyStarted(old(storage.objects), storage.objects, firstRevision)
    ensures old(storage.IsCalm()) && r.Ok? ==>
              && StartsFrom(old(storage.objects), firstRevision, r.value.0)
              && (!dryRun ==> storage.objects[CURRENT_JSON_KEY].etag == r.value.1)
    ensures old(storage.IsCalm()) && r.Err? ==>
              if CURRENT_JSON_KEY in old(storage.objects)
              then PointerIn(old(storage.objects)[CURRENT_JSON_KEY].content) == Err(r.error)
              else r.error == OrphanedStateNoPointer && ListingOf(old(storage.objects)) != []
  {
    hide IsValid, PointerIn, IsListing, ListingOf;
    r := FetchCurrentPointer(storage, dryRun, firstRevision);
  }

  method PlanFiles(lib: Library, storage: Storage, topo: ValidatedTopology, baseline: CurrentJson,
                   rotate: RotateSelection, entropy: Entropy)
    returns (r: Result<(Resolution, map<string, string>), ApplyError>, ghost stored: OldConfigs)
    requires storage.Valid() && Ascending(Names(topo.nodes))
    modifies storage
    ensures OnlyRead(storage)
    ensures r.Ok? && IsValid(baseline) ==>
              forall etag :: IsPrepared(lib, old(storage.objects), topo, rotate, entropy, stored,
                                        Prepared(baseline, etag, r.value.0, r.value.1))
    ensures r.Err? && !r.error.StorageFailed? ==>
              PlanExcuse(lib, old(storage.objects), topo, rotate, entropy, baseline, r.error)
    ensures r.Err? && old(storage.IsCalm()) ==> !r.error.StorageFailed?
  {
    hide IsValid, FileIn, AllRendered, ResolvesTo, WithFreshness, Justified, Rendered, IsFetched;
    stored := map[];
    ghost var before := storage.objects;
    var fetched := FetchReusableConfigs(lib, storage, baseline.current, Names(topo.nodes));
    if fetched.Err? {
      if !fetched.error.StorageFailed? {
        ghost var h :| Lists(baseline.current, h) && FileIn(lib, before, baseline.current.value, h) == Err(fetched.error);
        FileErrors(lib, before, baseline.current.value, h);
      }
      return Err(fetched.error), stored;
    }
    stored := fetched.value;
    var resolution := ResolveKeys(lib, topo, fetched.value, rotate, entropy);
    if resolution.Err? {
      return Err(Unresolvable(resolution.error)), stored;
    }
    var files := RenderAll(lib, topo, resolution.value.keys);
    if files.Err? {
      return Err(Unrenderable(files.error)), stored;
    }
    r := Ok((resolution.value, files.value));
  }

  lemma SamePrepared(lib: Library, before: Objects, after: Objects,
                     topo: ValidatedTopology, rotate: RotateSelection, entropy: Entropy, stored: OldConfigs, p: Prepared)
    requires SameFiles(before, after) && IsPrepared(lib, after, topo, rotate, entropy, stored, p)
    ensures IsPrepared(lib, before, topo, rotate, entropy, stored, p)
  {
    hide IsValid, IsFetched, ResolvesTo, AllRendered, WithFreshness;
    SameFetched(lib, before, after, p.baseline.current, Names(topo.nodes), stored);
  }

  lemma SameExcuse(lib: Library, before: Objects, after: Objects, topo: ValidatedTopology,
                   rotate: RotateSelection, entropy: Entropy, baseline: CurrentJson, e: ApplyError)
    requires SameFiles(before, after) && PlanExcuse(lib, after, topo, rotate, entropy, baseline, e)
    ensures PlanExcuse(lib, before, topo, rotate, entropy, baseline, e)
  {
    hide FileIn, IsFetched, ResolvesTo, Justified, Rendered, SameFiles;
    forall stored | IsFetched(lib, after, baseline.current, Names(topo.nodes), stored)
      ensures IsFetched(lib, before, baseline.current, Names(topo.nodes), stored)
    {
      SameFetched(lib, before, after, baseline.current, Names(topo.nodes), stored);
    }
    forall h | Lists(baseline.current, h)
      ensures FileIn(lib, before, baseline.current.value, h) == FileIn(lib, after, baseline.current.value, h)
    {
      SameFileIn(lib, before, after, baseline.current.value, h);
    }
  }

  method PrepareRun(lib: Library, storage: Storage, topo: ValidatedTopology, dryRun: bool, rotate: RotateSelection, draws: Draws)
    returns (r: Result<Prepared, ApplyError>, ghost stored: OldConfigs)
    requires storage.Valid() && DrawsOk(draws) && Ascending(Names(topo.nodes))
    modifies storage
    ensures storage.Valid() && storage.Evolves(CURRENT_JSON_KEY) && OnlyInitializes(storage, draws.firstRevision)
    ensures SameFiles(old(storage.objects), storage.objects)
    ensures dryRun ==> storage.InstallsNothing()
    ensures r.Ok? ==> IsPrepared(lib, old(storage.objects), topo, rotate, draws.entropy, stored, r.value)
    ensures r.Ok? && !dryRun ==>
              NamesPointer(storage, r.value.etag, r.value.baseline) && CURRENT_JSON_KEY in storage.objects
    ensures old(storage.IsCalm()) ==> storage.IsCalm() && (dryRun ==> storage.objects == old(storage.objects))
    ensures old(storage.IsCalm()) ==> OnlyStarted(old(storage.objects), storage.objects, draws.firstRevision)
    ensures old(storage.IsCalm()) && r.Ok? ==>
              && StartsFrom(old(storage.objects), draws.firstRevision, r.value.baseline)
              && (!dryRun ==> storage.objects[CURRENT_JSON_KEY].etag == r.value.etag)
    ensures old(storage.IsCalm()) && r.Err? ==> PrepareExcuse(lib, old(storage.objects), topo, rotate, draws, r.error)
  {
    hide IsValid, PointerIn, ListingOf, IsPrepared, PlanExcuse, StartsFrom, Base32.IsCanonical;
    stored := map[];
    ghost var before := storage.objects;
    var start := StartRun(storage, dryRun, draws.firstRevision);
    if start.Err? {
      return Err(start.error), stored;
    }
    var baseline := start.value.0;
    ghost var middle := storage.objects;
    var planned;
    planned, stored := PlanFiles(lib, storage, topo, baseline, rotate, draws.entropy);
    if planned.Err? {
      if !planned.error.StorageFailed? {
        SameExcuse(lib, before, middle, topo, rotate, draws.entropy, baseline, planned.error);
      }
      return Err(planned.error), stored;
    }
    var p := Prepared(baseline, start.value.1, planned.value.0, planned.value.1);
    SamePrepared(lib, before, middle, topo, rotate, draws.entropy, stored, p);
    r := Ok(p);
  }
}
