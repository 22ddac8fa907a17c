/** The discovery pointer `current.json`: its schema and well-formedness rule. */
module Discovery {
  import opened Outcomes
  import Base32
  import Hostname

  const SCHEMA_VERSION: nat := 1
  const MAX_NODES: nat := 4096

  /** The object `nodes/<host>/<id>.conf`. */
  datatype Key = Key(host: string, id: string)

  /** A collision-free content digest: two digests are equal iff the contents are. */
  datatype Digest = Digest(of: string)

  datatype GenerationEntry = GenerationEntry(id: string, nodes: map<string, Digest>)

  datatype CurrentJson = CurrentJson(
    schemaVersion: nat,
    revision: string,
    current: Option<GenerationEntry>,
    previous: Option<GenerationEntry>)

  datatype DiscoveryError =
    | UnsupportedSchemaVersion(version: nat)
    | InvalidRevision
    | InvalidGenerationId(id: string)
    | EmptyNodeMap
    | TooManyNodes(count: nat)
    | InvalidHostname
    | PreviousWithoutCurrent
    | EqualCurrentPreviousIds

  /** The pointer of a bucket that has just been initialized. */
  function Empty(revision: string): CurrentJson {
    CurrentJson(SCHEMA_VERSION, revision, None, None)
  }

  function ValidateEntry(g: GenerationEntry): Result<(), DiscoveryError> {
    if !Base32.IsCanonical(g.id) then Err(InvalidGenerationId(g.id))
    else if |g.nodes| == 0 then Err(EmptyNodeMap)
    else if |g.nodes| > MAX_NODES then Err(TooManyNodes(|g.nodes|))
    else if exists h | h in g.nodes :: !Hostname.IsValid(h) then Err(InvalidHostname)
    else Ok(())
  }

  function ValidateOptional(g: Option<GenerationEntry>): Result<(), DiscoveryError> {
    if g.None? then Ok(()) else ValidateEntry(g.value)
  }

  function Validate(doc: CurrentJson): Result<(), DiscoveryError> {
    if doc.schemaVersion != SCHEMA_VERSION then Err(UnsupportedSchemaVersion(doc.schemaVersion))
    else if !Base32.IsCanonical(doc.revision) then Err(InvalidRevision)
    else if doc.current.None? && doc.previous.Some? then Err(PreviousWithoutCurrent)
    else if doc.current.Some? && doc.previous.Some? && doc.current.value.id == doc.previous.value.id then
      Err(EqualCurrentPreviousIds)
    else if ValidateOptional(doc.current).Err? then ValidateOptional(doc.current)
    else ValidateOptional(doc.previous)
  }

  predicate IsValid(doc: CurrentJson) {
    Validate(doc).Ok?
  }

  function IdOf(g: Option<GenerationEntry>): set<string> {
    if g.None? then {} else {g.value.id}
  }

  /** The generations the pointer keeps alive. */
  function Retained(doc: CurrentJson): set<string> {
    IdOf(doc.current) + IdOf(doc.previous)
  }

  /** A generation entry in order: a canonical id and between 1 and 4096 nodes with valid names. */
  predicate EntryInOrder(g: GenerationEntry) {
    && Base32.IsCanonical(g.id) && 1 <= |g.nodes| <= 4096
    && forall h :: h in g.nodes ==> Hostname.IsValid(h)
  }

  /** Exactly the documents that every reader accepts. */
  lemma ValidExactly(doc: CurrentJson)
    ensures IsValid(doc) <==>
              && doc.schemaVersion == 1 && Base32.IsCanonical(doc.revision)
              && (doc.current.Some? ==> EntryInOrder(doc.current.value))
              && (doc.previous.Some? ==> EntryInOrder(doc.previous.value))
              && (doc.previous.Some? ==> doc.current.Some? && doc.current.value.id != doc.previous.value.id)
  {
    hide Base32.IsCanonical, Hostname.IsValid;
  }

  /** Each error names a rule that is broken. */
  lemma ErrorsExactly(doc: CurrentJson)
    requires !IsValid(doc)
    ensures match Validate(doc).error
            case UnsupportedSchemaVersion(v) => v == doc.schemaVersion != 1
            case InvalidRevision => !Base32.IsCanonical(doc.revision)
            case PreviousWithoutCurrent => doc.current.None? && doc.previous.Some?
            case EqualCurrentPreviousIds => doc.current.Some? && IdOf(doc.current) == IdOf(doc.previous)
            case InvalidGenerationId(id) => id in Retained(doc) && !Base32.IsCanonical(id)
            case EmptyNodeMap => HasEntry(doc, (g: GenerationEntry) => |g.nodes| == 0)
            case TooManyNodes(n) => n > 4096 && HasEntry(doc, (g: GenerationEntry) => |g.nodes| == n)
            case InvalidHostname => HasEntry(doc, (g: GenerationEntry) => exists h :: h in g.nodes && !Hostname.IsValid(h))
  {
    hide Base32.IsCanonical, Hostname.IsValid;
  }

  ghost predicate HasEntry(doc: CurrentJson, p: GenerationEntry -> bool) {
    (doc.current.Some? && p(doc.current.value)) || (doc.previous.Some? && p(doc.previous.value))
  }
}
