/** The object store: conditional writes by entity tag (sections 13.1.1 and 13.1.2 of RFC 9110), and what the
    rest of the world may do between and during a job's requests. */
module Bucket {
  import opened Outcomes
  import opened Discovery
  import opened Order

  type Time = nat
  type Etag = nat

  const CURRENT_JSON_KEY: string := "current.json"

  /** What an object's bytes say: a pointer document, or any other text. */
  datatype Content = Document(doc: CurrentJson) | Text(text: string)

  datatype StoredObject = StoredObject(content: Content, etag: Etag, created: Time)

  type Objects = map<string, StoredObject>

  datatype FetchedObject = FetchedObject(content: Content, etag: Etag)

  datatype StorageError = RequestFailed(key: string)

  datatype PutOutcome = Written(etag: Etag) | PreconditionFailed

  /** What happens at one request. `Refused`: it fails without effect. `Lost`: it takes effect, but the reply
      does not arrive. `Touched`: before it, the pointer is stored again under a new etag. `Overtaken`: before
      it, another writer replaces the pointer. */
  datatype Event = Calm | Refused | Lost | Touched | Overtaken(doc: CurrentJson)

  /** A pointer that was stored: what it replaced, and whether it was stored by this program. */
  datatype Install = Install(before: Option<Content>, content: Content, own: bool)

  predicate HasPrefix(key: string, prefix: string) {
    |prefix| <= |key| && key[..|prefix|] == prefix
  }

  method KeysUnder(all: set<string>, prefix: string) returns (keys: seq<string>)
    ensures Ascending(keys) && forall k :: k in keys <==> k in all && HasPrefix(k, prefix)
  {
    hide Less, InsertName, HasPrefix;
    keys := [];
    var left := all;
    while left != {}
      invariant left <= all && Ascending(keys)
      invariant forall k :: k in keys <==> k in all - left && HasPrefix(k, prefix)
      decreases |left|
    {
      var k :| k in left;
      left := left - {k};
      if HasPrefix(k, prefix) {
        InsertNameAscending(keys, k);
        keys := InsertName(keys, k);
      }
    }
  }

  /** How often the pointer will be stored again under a new etag. */
  function Touches(events: seq<Event>): nat {
    if |events| == 0 then 0 else (if events[0].Touched? then 1 else 0) + Touches(events[1..])
  }

  class Storage {
    var objects: Objects
    var nextEtag: Etag
    var clock: Time
    var events: seq<Event>
    ghost var named: map<Etag, (string, Content)>
    ghost var installs: seq<Install>

    constructor (clock: Time, events: seq<Event>)
      ensures Valid() && objects == map[] && this.events == events && this.clock == clock && installs == []
    {
      this.clock, this.events := clock, events;
      objects, nextEtag, named, installs := map[], 0, map[], [];
    }

    /** Every etag in use names the object it was given to. */
    ghost predicate Valid()
      reads this
    {
      && (forall k :: k in objects ==>
            objects[k].etag in named && named[objects[k].etag] == (k, objects[k].content))
      && forall e :: e in named ==> e < nextEtag
    }

    /** The world moves on: etags keep their names, the history grows, other objects than the pointer and
        `key` stay, and the pointer is never deleted. */
    twostate predicate Evolves(key: string)
      reads this
    {
      && (forall e :: e in old(named) ==> e in named && named[e] == old(named)[e])
      && old(installs) <= installs
      && (forall k :: k != CURRENT_JSON_KEY && k != key ==>
            (k in objects <==> k in old(objects)) && (k in objects ==> objects[k] == old(objects)[k]))
      && (CURRENT_JSON_KEY in old(objects) ==> CURRENT_JSON_KEY in objects)
      && clock == old(clock)
    }

    /** Nothing was installed by this program. */
    twostate predicate InstallsNothing()
      reads this
    {
      && old(installs) <= installs
      && forall i :: |old(installs)| <= i < |installs| ==> !installs[i].own
    }

    ghost predicate IsCalm()
      reads this
    {
      events == []
    }

    /** Nothing worse will happen than that the pointer is stored again, and it is there. */
    ghost predicate IsQuiet()
      reads this
    {
      CURRENT_JSON_KEY in objects && forall i :: 0 <= i < |events| ==> events[i].Calm? || events[i].Touched?
    }

    /** One request of a quiet storage: the pointer keeps its content, and its etag unless it was touched. */
    twostate predicate PassesQuietly()
      reads this
      requires old(IsQuiet())
    {
      && IsQuiet() && objects[CURRENT_JSON_KEY].content == old(objects)[CURRENT_JSON_KEY].content
      && (|| (objects[CURRENT_JSON_KEY].etag == old(objects)[CURRENT_JSON_KEY].etag
              && Touches(events) == Touches(old(events)))
          || (objects[CURRENT_JSON_KEY].etag == old(nextEtag) && Touches(events) + 1 == Touches(old(events))))
    }

    method Store(key: string, content: Content, own: bool)
      requires Valid()
      modifies this`objects, this`nextEtag, this`named, this`installs
      ensures Valid() && Evolves(key)
      ensures objects == old(objects)[key := StoredObject(content, old(nextEtag), clock)]
      ensures nextEtag == old(nextEtag) + 1
      ensures installs == old(installs)
        + if key == CURRENT_JSON_KEY
          then [Install(if key in old(objects) then Some(old(objects)[key].content) else None, content, own)] else []
    {
      if key == CURRENT_JSON_KEY {
        installs := installs + [Install(if key in objects then Some(objects[key].content) else None, content, own)];
      }
      named := named[nextEtag := (key, content)];
      objects := objects[key := StoredObject(content, nextEtag, clock)];
      nextEtag := nextEtag + 1;
    }

    /** What the world does before the next request is served. */
    method NextEvent() returns (e: Event)
      requires Valid()
      modifies this
      ensures Valid() && Evolves(CURRENT_JSON_KEY) && InstallsNothing()
      ensures old(IsCalm()) ==> IsCalm() && e.Calm? && objects == old(objects) && installs == old(installs)
      ensures old(IsQuiet()) ==> PassesQuietly() && (e.Calm? || e.Touched?)
    {
      if |events| == 0 {
        return Calm;
      }
      e, events := events[0], events[1..];
      if CURRENT_JSON_KEY in objects && (e.Touched? || e.Overtaken?) {
        Store(CURRENT_JSON_KEY, if e.Touched? then objects[CURRENT_JSON_KEY].content else Document(e.doc), false);
      }
    }

    method GetObject(key: string) returns (r: Result<Option<FetchedObject>, StorageError>)
      requires Valid()
      modifies this
      ensures Valid() && Evolves(CURRENT_JSON_KEY) && InstallsNothing()
      ensures r.Ok? ==> r.value == if key in objects then Some(FetchedObject(objects[key].content, objects[key].etag)) else None
      ensures old(IsCalm()) ==> IsCalm() && r.Ok? && objects == old(objects) && installs == old(installs)
      ensures old(IsQuiet()) ==> r.Ok? && PassesQuietly()
    {
      var e := NextEvent();
      if e.Refused? || e.Lost? {
        return Err(RequestFailed(key));
      }
      r := Ok(if key in objects then Some(FetchedObject(objects[key].content, objects[key].etag)) else None);
    }

    /** Create `key` only if it does not exist. */
    method PutIfAbsent(key: string, content: Content) returns (r: Result<PutOutcome, StorageError>)
      requires Valid()
      modifies this
      ensures Valid() && Evolves(key) && old(installs) <= installs
      ensures r.Ok? && r.value.Written? ==>
                key in objects && objects[key].content == content && objects[key].etag == r.value.etag
      ensures r.Ok? && r.value.PreconditionFailed? ==> key in objects
      ensures key != CURRENT_JSON_KEY && key in old(objects) ==> key in objects && objects[key] == old(objects)[key]
      ensures key != CURRENT_JSON_KEY && key !in old(objects) && key in objects ==> objects[key].content == content
      ensures key != CURRENT_JSON_KEY ==> InstallsNothing()
      ensures old(IsCalm()) && key != CURRENT_JSON_KEY ==> installs == old(installs)
      ensures forall i :: |old(installs)| <= i < |installs| && installs[i].own ==>
                installs[i].content == content && installs[i].before == None
      ensures old(IsCalm()) ==> IsCalm() && r.Ok?
      ensures old(IsCalm()) ==> (r.value.Written? <==> key !in old(objects))
      ensures old(IsCalm()) ==> objects == if key in old(objects) then old(objects)
                                           else old(objects)[key := StoredObject(content, r.value.etag, clock)]
    {
      var e := NextEvent();
      if e.Refused? {
        return Err(RequestFailed(key));
      }
      if key in objects {
        return if e.Lost? then Err(RequestFailed(key)) else Ok(PreconditionFailed);
      }
      var etag := nextEtag;
      Store(key, content, true);
      r := if e.Lost? then Err(RequestFailed(key)) else Ok(Written(etag));
    }

    /** Replace `key` only if its etag is still `etag`. What it replaces is what the etag names. */
    method PutIfMatch(key: string, content: Content, etag: Etag) returns (r: Result<PutOutcome, StorageError>)
      requires Valid() && etag in named && named[etag].0 == key
      modifies this
      ensures Valid() && Evolves(key) && old(installs) <= installs
      ensures r.Ok? && r.value.Written? ==> key in objects && objects[key].content == content
      ensures forall i :: |old(installs)| <= i < |installs| && installs[i].own ==>
                installs[i].content == content && installs[i].before == Some(old(named)[etag].1)
      ensures old(IsCalm()) ==> IsCalm() && r.Ok?
      ensures old(IsCalm()) ==> (r.value.Written? <==> key in old(objects) && old(objects)[key].etag == etag)
      ensures old(IsCalm()) ==> objects == if r.value.Written?
                                           then old(objects)[key := StoredObject(content, r.value.etag, clock)]
                                           else old(objects)
      ensures old(IsQuiet()) && key == CURRENT_JSON_KEY ==>
                r.Ok? && IsQuiet() && (r.value.PreconditionFailed? ==> PassesQuietly())
      ensures old(IsQuiet()) && key == CURRENT_JSON_KEY && old(objects)[key].etag == etag ==>
                (r.value.Written? <==> Touches(events) == Touches(old(events)))
    {
      var e := NextEvent();
      if e.Refused? {
        return Err(RequestFailed(key));
      }
      if key !in objects || objects[key].etag != etag {
        return if e.Lost? then Err(RequestFailed(key)) else Ok(PreconditionFailed);
      }
      var newEtag := nextEtag;
      Store(key, content, true);
      r := if e.Lost? then Err(RequestFailed(key)) else Ok(Written(newEtag));
    }

    /** The keys under `prefix`, in order. */
    method ListAll(prefix: string) returns (r: Result<seq<string>, StorageError>)
      requires Valid()
      modifies this
      ensures Valid() && Evolves(CURRENT_JSON_KEY) && InstallsNothing()
      ensures r.Ok? ==> Ascending(r.value) && forall k :: k in r.value <==> k in objects && HasPrefix(k, prefix)
      ensures old(IsCalm()) ==> IsCalm() && r.Ok? && objects == old(objects) && installs == old(installs)
    {
      var e := NextEvent();
      if e.Refused? || e.Lost? {
        return Err(RequestFailed(prefix));
      }
      var keys := KeysUnder(objects.Keys, prefix);
      r := Ok(keys);
    }

    method DeleteObject(key: string) returns (r: Result<(), StorageError>)
      requires Valid() && key != CURRENT_JSON_KEY
      modifies this
      ensures Valid() && Evolves(key) && InstallsNothing()
      ensures r.Ok? ==> key !in objects
      ensures key in objects ==> key in old(objects) && objects[key] == old(objects)[key]
      ensures old(IsCalm()) ==> IsCalm() && r.Ok? && objects == old(objects) - {key} && installs == old(installs)
    {
      var e := NextEvent();
      if e.Refused? {
        return Err(RequestFailed(key));
      }
      objects := objects - {key};
      r := if e.Lost? then Err(RequestFailed(key)) else Ok(());
    }
  }
}
