/** The `apply` run against a bucket: reading the pointer and the published files, resolving and rendering,
    uploading a generation, committing the pointer, cleaning up. */
module Publish {
  import opened Outcomes
  import opened Discovery
  import opened Order
  import opened Topology
  import opened WgQuick
  import opened Render
  import opened KeyResolution
  import opened Bucket
  import opened Retention
  import Base32

  datatype ApplyError =
    | Invalid(reason: ValidationError)
    | StorageFailed(failure: StorageError)
    | UnparsablePointer
    | BadPointer(fault: DiscoveryError)
    | OrphanedStateNoPointer
    | MissingReferencedFile(hostname: string)
    | FileDigestMismatch(hostname: string)
    | UnparsableCurrentConfig(hostname: string, source: ParseError)
    | Unresolvable(cause: ResolveError)
    | Unrenderable(defect: RenderError)
    | GenerationIdCollision(hostname: string)
    | PointerConflict
    | PointerCommitUnknown
    | PointerRetriesExhausted
    | UnknownRotateHostname(hostname: string)

  // -------------------------------------------------------------------
  // The pointer
  // -------------------------------------------------------------------

  /** The pointer document in an object, if it is well formed. */
  function PointerIn(content: Content): Result<CurrentJson, ApplyError> {
    match content
    case Text(_) => Err(UnparsablePointer)
    case Document(doc) => if IsValid(doc) then Ok(doc) else Err(BadPointer(Discovery.Validate(doc).error))
  }

  /** The etag was given to the pointer when it said `doc`. */
  ghost predicate NamesPointer(storage: Storage, etag: Etag, doc: CurrentJson)
    reads storage
  {
    etag in storage.named && storage.named[etag] == (CURRENT_JSON_KEY, Document(doc))
  }

  lemma EmptyIsValid(revision: string)
    requires Base32.IsCanonical(revision)
    ensures IsValid(Empty(revision))
  {
  }

  /** What reading the pointer gives: nothing, a valid document and the etag that names it, or an error. */
  method ReadPointer(storage: Storage) returns (r: Result<Option<(CurrentJson, Etag)>, ApplyError>)
    requires storage.Valid()
    modifies storage
    ensures storage.Valid() && storage.Evolves(CURRENT_JSON_KEY) && storage.InstallsNothing()
    ensures r.Ok? && r.value.Some? ==>
              && IsValid(r.value.value.0) && CURRENT_JSON_KEY in storage.objects
              && NamesPointer(storage, r.value.value.1, r.value.value.0)
    ensures r.Ok? && r.value.None? ==> CURRENT_JSON_KEY !in storage.objects
    ensures old(storage.IsCalm()) ==> storage.IsCalm() && storage.objects == old(storage.objects)
    ensures old(storage.IsCalm()) ==>
              r == if CURRENT_JSON_KEY !in old(storage.objects) then Ok(None)
                   else
                     match PointerIn(old(storage.objects)[CURRENT_JSON_KEY].content)
                     case Err(e) => Err(e)
                     case Ok(doc) => Ok(Some((doc, old(storage.objects)[CURRENT_JSON_KEY].etag)))
  {
    hide Discovery.Validate;
    var got := storage.GetObject(CURRENT_JSON_KEY);
    if got.Err? {
      return Err(StorageFailed(got.error));
    }
    if got.value.None? {
      return Ok(None);
    }
    var doc := PointerIn(got.value.value.content);
    r := if doc.Err? then Err(doc.error) else Ok(Some((doc.value, got.value.value.etag)));
  }

  /** Whatever this run has installed meanwhile is an empty pointer, where there was none. */
  twostate predicate OnlyInitializes(storage: Storage, revision: string)
    reads storage
  {
    && old(storage.installs) <= storage.installs
    && forall i :: |old(storage.installs)| <= i < |storage.installs| && storage.installs[i].own ==>
         storage.installs[i].before == None && storage.installs[i].content == Document(Empty(revision))
  }

  /** Try to create an empty pointer. */
  method PutEmptyPointer(storage: Storage, revision: string) returns (r: Result<PutOutcome, StorageError>)
    requires storage.Valid()
    modifies storage
    ensures storage.Valid() && storage.Evolves(CURRENT_JSON_KEY) && OnlyInitializes(storage, revision)
    ensures r.Ok? ==> CURRENT_JSON_KEY in storage.objects
    ensures r.Ok? && r.value.Written? ==>
              NamesPointer(storage, r.value.etag, Empty(revision))
              && storage.objects[CURRENT_JSON_KEY].etag == r.value.etag
    ensures old(storage.IsCalm()) ==> storage.IsCalm()
    ensures old(storage.IsCalm()) && CURRENT_JSON_KEY !in old(storage.objects) ==> r.Ok? && r.value.Written?
  {
    r := storage.PutIfAbsent(CURRENT_JSON_KEY, Document(Empty(revision)));
  }

  /** Create an empty pointer, or adopt the one that someone else created meanwhile. */
  method CreatePointer(storage: Storage, revision: string) returns (r: Result<(CurrentJson, Etag), ApplyError>)
    requires storage.Valid() && Base32.IsCanonical(revision)
    modifies storage
    ensures storage.Valid() && storage.Evolves(CURRENT_JSON_KEY) && OnlyInitializes(storage, revision)
    ensures r.Ok? ==> IsValid(r.value.0)
    ensures r.Ok? ==> NamesPointer(storage, r.value.1, r.value.0) && CURRENT_JSON_KEY in storage.objects
    ensures old(storage.IsCalm()) ==> storage.IsCalm()
    ensures old(storage.IsCalm()) && CURRENT_JSON_KEY !in old(storage.objects) ==>
              && r.Ok? && r.value.0 == Empty(revision)
              && CURRENT_JSON_KEY in storage.objects && storage.objects[CURRENT_JSON_KEY].etag == r.value.1
  {
    hide IsValid, PointerIn, Base32.IsCanonical;
    EmptyIsValid(revision);
    var put := PutEmptyPointer(storage, revision);
    if put.Err? {
      return Err(StorageFailed(put.error));
    }
    if put.value.Written? {
      return Ok((Empty(revision), put.value.etag));
    }
    var theirs := ReadPointer(storage);
    if theirs.Err? {
      return Err(theirs.error);
    }
    assert theirs.value.Some?; // a lost initialization race leaves a pointer behind, and pointers are never deleted
    r := Ok(theirs.value.value);
  }

  /** A bucket without a pointer: refuse leftover generations, otherwise create an empty pointer. */
  method InitializePointer(storage: Storage, dryRun: bool, revision: string)
    returns (r: Result<(CurrentJson, Etag), ApplyError>)
    requires storage.Valid() && Base32.IsCanonical(revision)
    modifies storage
    ensures storage.Valid() && storage.Evolves(CURRENT_JSON_KEY)
    ensures r.Ok? ==> IsValid(r.value.0)
    ensures r.Ok? && !dryRun ==> NamesPointer(storage, r.value.1, r.value.0) && CURRENT_JSON_KEY in storage.objects
    ensures dryRun ==> storage.InstallsNothing()
    ensures OnlyInitializes(storage, revision)
    ensures old(storage.IsCalm()) ==> storage.IsCalm() && (dryRun ==> storage.objects == old(storage.objects))
    ensures old(storage.IsCalm()) && CURRENT_JSON_KEY !in old(storage.objects) ==>
              if ListingOf(old(storage.objects)) != []
              then r == Err(OrphanedStateNoPointer) && storage.objects == old(storage.objects)
              else r.Ok? && r.value.0 == Empty(revision)
                   && (!dryRun ==> CURRENT_JSON_KEY in storage.objects
                                   && storage.objects[CURRENT_JSON_KEY].etag == r.value.1)
  {
    hide IsValid, HasPrefix, Less, PointerIn, Without, IsListing, ListingOf, Unharmed, Base32.IsCanonical;
    EmptyIsValid(revision);
    var existing := ListNodes(storage);
    if existing.Err? {
      return Err(StorageFailed(existing.error));
    }
    if existing.value != [] {
      return Err(OrphanedStateNoPointer);
    }
    if dryRun {
      return Ok((Empty(revision), 0));
    }
    r := CreatePointer(storage, revision);
  }

  /** Read the pointer, or initialize an empty bucket. The pointer it returns is valid and is what the etag
      names; a dry run writes nothing. */
  method FetchCurrentPointer(storage: Storage, dryRun: bool, revision: string)
    returns (r: Result<(CurrentJson, Etag), ApplyError>)
    requires storage.Valid() && Base32.IsCanonical(revision)
    modifies storage
    ensures storage.Valid() && storage.Evolves(CURRENT_JSON_KEY)
    ensures r.Ok? ==> IsValid(r.value.0)
    ensures r.Ok? && !dryRun ==> NamesPointer(storage, r.value.1, r.value.0) && CURRENT_JSON_KEY in storage.objects
    ensures dryRun ==> storage.InstallsNothing()
    ensures OnlyInitializes(storage, revision)
    ensures old(storage.IsCalm()) ==> storage.IsCalm() && (dryRun ==> storage.objects == old(storage.objects))
    ensures old(storage.IsCalm()) && CURRENT_JSON_KEY in old(storage.objects) ==>
              && storage.objects == old(storage.objects)
              && r == match PointerIn(old(storage.objects)[CURRENT_JSON_KEY].content)
                      case Err(e) => Err(e)
                      case Ok(doc) => Ok((doc, old(storage.objects)[CURRENT_JSON_KEY].etag))
    ensures old(storage.IsCalm()) && CURRENT_JSON_KEY !in old(storage.objects) ==>
              if ListingOf(old(storage.objects)) != []
              then r == Err(OrphanedStateNoPointer) && storage.objects == old(storage.objects)
              else r.Ok? && r.value.0 == Empty(revision)
                   && (!dryRun ==> CURRENT_JSON_KEY in storage.objects
                                   && storage.objects[CURRENT_JSON_KEY].etag == r.value.1)
  {
    hide IsValid, PointerIn, ListingOf, IsListing, Base32.IsCanonical;
    var found := ReadPointer(storage);
    if found.Err? {
      return Err(found.error);
    }
    if found.value.Some? {
      return Ok(found.value.value);
    }
    r := InitializePointer(storage, dryRun, revision);
  }

  const MAX_POINTER_RETRIES: nat := 5

  ghost predicate ReplacesRevision(i: Install, intended: CurrentJson, revision: string) {
    i.content == Document(intended) && i.before.Some? && i.before.value.Document? && i.before.value.doc.revision == revision
  }

  /** Whatever this run has installed meanwhile is the intended pointer, over one with the baseline's revision. */
  twostate predicate OnlyReplaces(storage: Storage, intended: CurrentJson, revision: string)
    reads storage
  {
    && old(storage.installs) <= storage.installs
    && forall i :: |old(storage.installs)| <= i < |storage.installs| && storage.installs[i].own ==>
         ReplacesRevision(storage.installs[i], intended, revision)
  }

  /** The intended pointer has been stored: some etag was given to it. */
  ghost predicate IsCommitted(storage: Storage, intended: CurrentJson)
    reads storage
  {
    exists e :: e in storage.named && storage.named[e] == (CURRENT_JSON_KEY, Document(intended))
  }

  lemma StoredIsCommitted(storage: Storage, intended: CurrentJson)
    requires storage.Valid() && CURRENT_JSON_KEY in storage.objects
    requires storage.objects[CURRENT_JSON_KEY].content == Document(intended)
    ensures IsCommitted(storage, intended)
  {
    assert storage.objects[CURRENT_JSON_KEY].etag in storage.named;
  }

  /** One if the pointer has another etag by now. */
  ghost function Stale(storage: Storage, etag: Etag): nat
    reads storage
  {
    if CURRENT_JSON_KEY in storage.objects && storage.objects[CURRENT_JSON_KEY].etag == etag then 0 else 1
  }

  /** One attempt: `Ok(None)` if the pointer is committed, `Ok(Some(etag))` to try again with that etag. */
  method TryCommit(storage: Storage, revision: string, etag: Etag, ghost named: CurrentJson, intended: CurrentJson)
    returns (r: Result<Option<Etag>, ApplyError>, ghost next: CurrentJson)
    requires storage.Valid() && NamesPointer(storage, etag, named) && named.revision == revision
    requires CURRENT_JSON_KEY in storage.objects
    modifies storage
    ensures storage.Valid() && storage.Evolves(CURRENT_JSON_KEY) && OnlyReplaces(storage, intended, revision)
    ensures r.Ok? && r.value.None? ==> IsCommitted(storage, intended)
    ensures r.Ok? && r.value.Some? ==> NamesPointer(storage, r.value.value, next) && next.revision == revision
    ensures r == Err(PointerConflict) ==>
              && storage.objects[CURRENT_JSON_KEY].content.Document?
              && storage.objects[CURRENT_JSON_KEY].content.doc != intended
              && storage.objects[CURRENT_JSON_KEY].content.doc.revision != revision
    ensures r.Err? ==> !r.error.PointerCommitUnknown? && !r.error.PointerRetriesExhausted?
    ensures old(storage.IsCalm()) ==> storage.IsCalm()
    ensures old(storage.IsCalm()) && old(storage.objects)[CURRENT_JSON_KEY].etag == etag ==>
              r == Ok(None) && storage.objects[CURRENT_JSON_KEY].content == Document(intended)
    ensures old(storage.IsQuiet()) && old(storage.objects)[CURRENT_JSON_KEY].content == Document(named) ==>
              && r.Ok? && storage.IsQuiet()
              && (r.value.None? ==> storage.objects[CURRENT_JSON_KEY].content == Document(intended))
              && (r.value.Some? ==>
                    && next == named && storage.objects[CURRENT_JSON_KEY].content == Document(named)
                    && Stale(storage, r.value.value) + Touches(storage.events)
                       < old(Stale(storage, etag) + Touches(storage.events)))
  {
    next := named;
    var put := storage.PutIfMatch(CURRENT_JSON_KEY, Document(intended), etag);
    if put.Err? {
      return Err(StorageFailed(put.error)), named;
    }
    if put.value.Written? {
      StoredIsCommitted(storage, intended);
      return Ok(None), named;
    }
    var got := storage.GetObject(CURRENT_JSON_KEY);
    if got.Err? {
      return Err(StorageFailed(got.error)), named;
    }
    assert got.value.Some?; // the pointer is never deleted, so the outcome of the write is always readable
    var content := got.value.value.content;
    if content == Document(intended) {
      StoredIsCommitted(storage, intended);
      return Ok(None), named;
    }
    if content.Text? {
      return Err(UnparsablePointer), named;
    }
    if content.doc.revision != revision {
      return Err(PointerConflict), named;
    }
    r, next := Ok(Some(got.value.value.etag)), content.doc;
  }

  /** Replace the pointer. Success means the intended pointer was stored; whatever this run stored replaced a
      pointer with the baseline's revision; a conflict means another revision is there now; fewer than
      `MAX_POINTER_RETRIES` rewrites of the same pointer do not stand in the way. An error does not
      mean that the pointer was not stored: the reply may have been lost. */
  method CommitPointer(storage: Storage, baseline: CurrentJson, baselineEtag: Etag, intended: CurrentJson)
    returns (r: Result<(), ApplyError>)
    requires storage.Valid() && NamesPointer(storage, baselineEtag, baseline) && CURRENT_JSON_KEY in storage.objects
    modifies storage
    ensures storage.Valid() && storage.Evolves(CURRENT_JSON_KEY) && OnlyReplaces(storage, intended, baseline.revision)
    ensures r.Ok? ==> IsCommitted(storage, intended)
    ensures r == Err(PointerConflict) ==>
              && storage.objects[CURRENT_JSON_KEY].content.Document?
              && storage.objects[CURRENT_JSON_KEY].content.doc != intended
              && storage.objects[CURRENT_JSON_KEY].content.doc.revision != baseline.revision
    ensures r != Err(PointerCommitUnknown)
    ensures old(storage.IsCalm()) ==> storage.IsCalm()
    ensures old(storage.IsCalm()) && old(storage.objects)[CURRENT_JSON_KEY].etag == baselineEtag ==>
              r.Ok? && storage.objects[CURRENT_JSON_KEY].content == Document(intended)
    ensures old(storage.IsQuiet() && storage.objects[CURRENT_JSON_KEY].content == Document(baseline)
                && Stale(storage, baselineEtag) + Touches(storage.events) < MAX_POINTER_RETRIES) ==>
              r.Ok? && storage.objects[CURRENT_JSON_KEY].content == Document(intended)
  {
    hide ReplacesRevision;
    var etag := baselineEtag;
    ghost var named: CurrentJson := baseline;
    ghost var quiet := storage.IsQuiet() && storage.objects[CURRENT_JSON_KEY].content == Document(baseline)
      && Stale(storage, baselineEtag) + Touches(storage.events) < MAX_POINTER_RETRIES;
    for attempt := 0 to MAX_POINTER_RETRIES
      invariant storage.Valid() && storage.Evolves(CURRENT_JSON_KEY) && CURRENT_JSON_KEY in storage.objects
      invariant OnlyReplaces(storage, intended, baseline.revision)
      invariant NamesPointer(storage, etag, named) && named.revision == baseline.revision
      invariant old(storage.IsCalm()) ==> storage.IsCalm()
      invariant attempt == 0 ==> etag == baselineEtag && storage.objects == old(storage.objects)
      invariant old(storage.IsCalm()) && old(storage.objects)[CURRENT_JSON_KEY].etag == baselineEtag ==> attempt == 0
      invariant quiet ==> storage.IsQuiet() && storage.objects[CURRENT_JSON_KEY].content == Document(named)
      invariant quiet ==> Stale(storage, etag) + Touches(storage.events) + attempt < MAX_POINTER_RETRIES
    {
      var tried, next := TryCommit(storage, baseline.revision, etag, named, intended);
      if tried.Err? {
        return Err(tried.error);
      }
      if tried.value.None? {
        return Ok(());
      }
      etag, named := tried.value.value, next;
    }
    r := Err(PointerRetriesExhausted);
  }
}
