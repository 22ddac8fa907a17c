/** The client's discovery loop: read the pointer, fetch this node's file, start over if it is gone. */
module Discover {
  import opened Outcomes
  import opened Discovery

  const MAX_DISCOVERY_ROUNDS: nat := 3

  datatype SyncError =
    | Transport
    | NoPublication
    | InvalidPointer(error: DiscoveryError)
    | NothingPublished
    | NotRegistered
    | DigestMismatch
    | RoundsExhausted

  /** What the bucket answers in one round: the pointer, and the file under a key. */
  datatype Answers = Answers(
    pointer: Result<Option<CurrentJson>, SyncError>,
    file: map<Key, Result<Option<string>, SyncError>>)

  datatype Download = Download(id: string, digest: Digest, bytes: string)

  /** The file a pointer tells `host` to fetch. */
  function Wanted(pointer: Result<Option<CurrentJson>, SyncError>, host: string)
    : Result<(GenerationEntry, Digest), SyncError>
  {
    match pointer
    case Err(e) => Err(e)
    case Ok(None) => Err(NoPublication)
    case Ok(Some(doc)) =>
      match Validate(doc)
      case Err(e) => Err(InvalidPointer(e))
      case Ok(_) =>
        if doc.current.None? then Err(NothingPublished)
        else if host !in doc.current.value.nodes then Err(NotRegistered)
        else Ok((doc.current.value, doc.current.value.nodes[host]))
  }

  function FileAnswer(answers: Answers, key: Key): Result<Option<string>, SyncError> {
    if key in answers.file then answers.file[key] else Err(Transport)
  }

  /** One round: `Ok(None)` means the file is missing and the client rediscovers. */
  function Round(answers: Answers, host: string): Result<Option<Download>, SyncError> {
    match Wanted(answers.pointer, host)
    case Err(e) => Err(e)
    case Ok((entry, digest)) =>
      match FileAnswer(answers, Key(host, entry.id))
      case Err(e) => Err(e)
      case Ok(None) => Ok(None)
      case Ok(Some(bytes)) =>
        if Digest(bytes) != digest then Err(DigestMismatch)
        else Ok(Some(Download(entry.id, digest, bytes)))
  }

  /** The first round that does not ask for another decides. */
  function Decided(rounds: seq<Answers>, host: string): Result<Download, SyncError> {
    if |rounds| == 0 then Err(RoundsExhausted)
    else
      match Round(rounds[0], host)
      case Err(e) => Err(e)
      case Ok(Some(d)) => Ok(d)
      case Ok(None) => Decided(rounds[1..], host)
  }

  method DiscoverAndDownload(rounds: seq<Answers>, host: string) returns (r: Result<Download, SyncError>)
    requires |rounds| == MAX_DISCOVERY_ROUNDS
    ensures r == Decided(rounds, host)
    ensures r.Ok? ==> r.value.digest == Digest(r.value.bytes)
  {
    for round := 0 to MAX_DISCOVERY_ROUNDS
      invariant Decided(rounds[round..], host) == Decided(rounds, host)
    {
      assert rounds[round..][1..] == rounds[round + 1..];
      var wanted := Wanted(rounds[round].pointer, host);
      if wanted.Err? {
        return Err(wanted.error);
      }
      var entry, expected := wanted.value.0, wanted.value.1;
      var file := FileAnswer(rounds[round], Key(host, entry.id));
      if file.Err? {
        return Err(file.error);
      }
      if file.value.Some? {
        var bytes := file.value.value;
        if Digest(bytes) != expected {
          return Err(DigestMismatch);
        }
        return Ok(Download(entry.id, Digest(bytes), bytes));
      }
    }
    r := Err(RoundsExhausted);
  }

  /** Running out of rounds means every round found a pointer and missed its file. */
  lemma {:induction false} ExhaustedMeansAllMissing(rounds: seq<Answers>, host: string)
    ensures Decided(rounds, host) == Err(RoundsExhausted) && NeverExhausted(rounds) ==>
              forall i :: 0 <= i < |rounds| ==> Round(rounds[i], host) == Ok(None)
  {
    hide Round, Plausible;
    if |rounds| > 0 && NeverExhausted(rounds) && Decided(rounds, host) == Err(RoundsExhausted) {
      RoundErrors(rounds[0], host);
      ExhaustedMeansAllMissing(rounds[1..], host);
      forall i | 0 <= i < |rounds| ensures Round(rounds[i], host) == Ok(None) {
        if i > 0 { assert rounds[i] == rounds[1..][i - 1]; }
      }
    }
  }

  /** The bucket itself never answers "rounds exhausted". */
  ghost predicate NeverExhausted(rounds: seq<Answers>) {
    forall i :: 0 <= i < |rounds| ==> Plausible(rounds[i])
  }

  ghost predicate Plausible(a: Answers) {
    a.pointer != Err(RoundsExhausted) && forall k :: k in a.file ==> a.file[k] != Err(RoundsExhausted)
  }

  lemma RoundErrors(a: Answers, host: string)
    requires Plausible(a)
    ensures Round(a, host) != Err(RoundsExhausted)
  {
  }

  /** A decision for a download comes from one of the rounds. */
  lemma {:induction false} DecidedByRound(rounds: seq<Answers>, host: string)
    requires Decided(rounds, host).Ok?
    ensures exists i :: 0 <= i < |rounds| && Round(rounds[i], host) == Ok(Some(Decided(rounds, host).value))
  {
    if Round(rounds[0], host) == Ok(None) {
      DecidedByRound(rounds[1..], host);
      var i :| 0 <= i < |rounds[1..]| && Round(rounds[1..][i], host) == Ok(Some(Decided(rounds, host).value));
      assert rounds[i + 1] == rounds[1..][i];
    }
  }

  /** A round downloads exactly the bytes under the key that a valid pointer gives this host, if they have the digest it
      records; it asks for another round exactly if that file is missing. */
  lemma RoundExactly(a: Answers, host: string)
    ensures forall d: Download :: Round(a, host) == Ok(Some(d)) <==>
              PointsTo(a, host, d.id, d.digest) && Key(host, d.id) in a.file
              && a.file[Key(host, d.id)] == Ok(Some(d.bytes)) && Digest(d.bytes) == d.digest
    ensures Round(a, host) == Ok(None) <==>
              exists id, digest :: PointsTo(a, host, id, digest) && Key(host, id) in a.file && a.file[Key(host, id)] == Ok(None)
  {
    hide Validate;
    if Round(a, host) == Ok(None) {
      var doc := a.pointer.value.value;
      assert PointsTo(a, host, doc.current.value.id, doc.current.value.nodes[host]);
    }
  }

  /** The bucket has a valid pointer whose current generation records this digest for the host. */
  predicate PointsTo(a: Answers, host: string, id: string, digest: Digest) {
    && a.pointer.Ok? && a.pointer.value.Some? && IsValid(a.pointer.value.value)
    && a.pointer.value.value.current.Some? && a.pointer.value.value.current.value.id == id
    && host in a.pointer.value.value.current.value.nodes && a.pointer.value.value.current.value.nodes[host] == digest
  }

  /** Why a round gives up: what it could not fetch, or what is wrong with what it fetched. */
  lemma RoundErrorsExactly(a: Answers, host: string)
    requires Round(a, host).Err?
    ensures a.pointer.Err? ==> Round(a, host) == Err(a.pointer.error)
    ensures a.pointer == Ok(None) ==> Round(a, host) == Err(NoPublication)
    ensures a.pointer.Ok? && a.pointer.value.Some? ==>
              var doc := a.pointer.value.value;
              && (!IsValid(doc) ==> Round(a, host).error.InvalidPointer?)
              && (IsValid(doc) && doc.current.None? ==> Round(a, host) == Err(NothingPublished))
              && (IsValid(doc) && doc.current.Some? && host !in doc.current.value.nodes ==>
                    Round(a, host) == Err(NotRegistered))
  {
    hide Validate;
  }
}
