/** Retention: node files of generations that `current.json` no longer refers to are deleted once they are old enough. */
module Retention {
  import opened Outcomes
  import opened Text
  import opened Discovery
  import opened Order
  import opened Bucket
  import Base32
  import Hostname
  import Protocol

  const NODES_PREFIX: string := "nodes/"
  const SUFFIX: string := ".conf"

  // -------------------------------------------------------------------
  // Keys of node files
  // -------------------------------------------------------------------

  function NodeObjectKey(k: Key): string {
    NODES_PREFIX + (k.host + "/" + (k.id + SUFFIX))
  }

  function StripPrefix(s: string, prefix: string): Option<string> {
    if HasPrefix(s, prefix) then Some(s[|prefix|..]) else None
  }

  function StripSuffix(s: string, suffix: string): Option<string> {
    if |suffix| <= |s| && s[|s| - |suffix|..] == suffix then Some(s[..|s| - |suffix|]) else None
  }

  predicate KeyOk(k: Key) {
    Hostname.IsValid(k.host) && Base32.IsCanonical(k.id)
  }

  function ParseNodeKey(key: string): Option<Key> {
    match StripPrefix(key, NODES_PREFIX)
    case None => None
    case Some(rest) =>
      match SplitOnce(rest, '/')
      case None => None
      case Some((host, filename)) =>
        match StripSuffix(filename, SUFFIX)
        case None => None
        case Some(id) => if KeyOk(Key(host, id)) then Some(Key(host, id)) else None
  }

  lemma HostHasNoSlash(h: string)
    requires Hostname.IsValid(h)
    ensures Lacks(h, '/')
  {
    Hostname.Characters(h);
  }

  /** Every valid key is read back from its object name. */
  lemma ParseAfterPrint(k: Key)
    requires KeyOk(k)
    ensures ParseNodeKey(NodeObjectKey(k)) == Some(k)
  {
    HostHasNoSlash(k.host);
    hide KeyOk;
    var filename := k.id + SUFFIX;
    var rest := k.host + "/" + filename;
    var key := NodeObjectKey(k);
    assert key[|NODES_PREFIX|..] == rest && key[..|NODES_PREFIX|] == NODES_PREFIX;
    SplitOnceAt(k.host, '/', filename);
    assert rest == k.host + ['/'] + filename;
    assert filename[|filename| - |SUFFIX|..] == SUFFIX && filename[..|filename| - |SUFFIX|] == k.id;
  }

  /** Every recognized object name is the name of the key it is read as. */
  lemma PrintAfterParse(key: string)
    requires ParseNodeKey(key).Some?
    ensures KeyOk(ParseNodeKey(key).value) && NodeObjectKey(ParseNodeKey(key).value) == key
  {
    hide KeyOk, SplitOnce;
    var rest := StripPrefix(key, NODES_PREFIX).value;
    SplitOnceParts(rest, '/');
    var (host, filename) := SplitOnce(rest, '/').value;
    var id := StripSuffix(filename, SUFFIX).value;
    assert filename == id + SUFFIX;
    assert key == NODES_PREFIX + rest;
    assert rest == host + "/" + filename;
  }

  lemma PointerIsNotANode(key: string)
    requires HasPrefix(key, NODES_PREFIX)
    ensures key != CURRENT_JSON_KEY
  {
    assert key[0] == 'n' && CURRENT_JSON_KEY[0] == 'c' by { assert key[..6][0] == "nodes/"[0]; }
  }

  // -------------------------------------------------------------------
  // Cleanup
  // -------------------------------------------------------------------

  datatype Class = Kept | TooYoung | Unrecognized | Doomed

  /** What becomes of a listed object. */
  function Classify(key: string, created: Time, pointer: CurrentJson, now: Time, grace: Time): Class {
    match ParseNodeKey(key)
    case None => Unrecognized
    case Some(k) =>
      if k.id in Retained(pointer) then Kept
      else if Protocol.Age(now, created) < grace then TooYoung
      else Doomed
  }

  datatype Report = Report(deleted: seq<string>, skippedWithinGrace: seq<string>, skippedUnrecognized: seq<string>)

  /** The listed keys of one class, in order. */
  function Select(keys: seq<string>, objects: Objects, pointer: CurrentJson, now: Time, grace: Time,
                  fate: Class): seq<string>
    requires forall k :: k in keys ==> k in objects
  {
    if |keys| == 0 then []
    else
      var last := keys[|keys| - 1];
      Select(keys[..|keys| - 1], objects, pointer, now, grace, fate)
      + if Classify(last, objects[last].created, pointer, now, grace) == fate then [last] else []
  }

  function FullReport(keys: seq<string>, objects: Objects, pointer: CurrentJson, now: Time, grace: Time)
    : Report
    requires forall k :: k in keys ==> k in objects
  {
    Report(Select(keys, objects, pointer, now, grace, Doomed),
           Select(keys, objects, pointer, now, grace, TooYoung),
           Select(keys, objects, pointer, now, grace, Unrecognized))
  }

  lemma {:induction false} SelectMembers(keys: seq<string>, objects: Objects, pointer: CurrentJson,
                                         now: Time, grace: Time, fate: Class)
    requires forall k :: k in keys ==> k in objects
    ensures forall k :: k in Select(keys, objects, pointer, now, grace, fate)
                   <==> k in keys && Classify(k, objects[k].created, pointer, now, grace) == fate
    decreases |keys|
  {
    hide Classify;
    if |keys| > 0 {
      SelectMembers(keys[..|keys| - 1], objects, pointer, now, grace, fate);
      assert keys == keys[..|keys| - 1] + [keys[|keys| - 1]];
    }
  }

  lemma SelectAppend(keys: seq<string>, i: nat, objects: Objects, pointer: CurrentJson, now: Time,
                     grace: Time)
    requires i < |keys| && forall k :: k in keys ==> k in objects
    ensures forall k :: k in keys[..i] ==> k in objects
    ensures forall k :: k in keys[..i + 1] ==> k in objects
    ensures var c := Classify(keys[i], objects[keys[i]].created, pointer, now, grace);
            forall d :: Select(keys[..i + 1], objects, pointer, now, grace, d)
                     == Select(keys[..i], objects, pointer, now, grace, d) + if c == d then [keys[i]] else []
  {
    hide Classify;
    assert keys[..i + 1][..i] == keys[..i];
  }

  /** The listing of node files: its keys in order, with the objects they name. */
  ghost predicate IsListing(keys: seq<string>, objects: Objects) {
    Ascending(keys) && forall k :: k in keys <==> k in objects && HasPrefix(k, NODES_PREFIX)
  }

  lemma ListingIsUnique(keys: seq<string>, other: seq<string>, objects: Objects)
    requires IsListing(keys, objects) && IsListing(other, objects)
    ensures keys == other
  {
    AscendingUnique(keys, other);
  }

  /** What a cleanup may have done by the time it stops: deleted some doomed files and nothing else. */
  ghost predicate OnlyDoomedGone(before: Objects, after: Objects,
                                 pointer: CurrentJson, now: Time, grace: Time)
  {
    forall k :: k in before && k != CURRENT_JSON_KEY ==>
      || (k in after && after[k] == before[k])
      || (HasPrefix(k, NODES_PREFIX) && Classify(k, before[k].created, pointer, now, grace) == Doomed)
  }

  /** Apart from the pointer, `after` is `before` without the keys `gone`. */
  ghost predicate Without(before: Objects, after: Objects, gone: seq<string>) {
    forall k :: k != CURRENT_JSON_KEY ==>
      && (k in after <==> k in before && k !in gone)
      && (k in after ==> after[k] == before[k])
  }

  ghost predicate NothingAdded(before: Objects, after: Objects) {
    forall k :: k in after && k != CURRENT_JSON_KEY ==> k in before
  }

  /** Etags keep their names, nothing is installed, the pointer stays; in calm weather it stays the same. */
  twostate predicate Unharmed(storage: Storage)
    reads storage
  {
    && storage.Valid() && storage.InstallsNothing()
    && (forall e :: e in old(storage.named) ==> e in storage.named && storage.named[e] == old(storage.named)[e])
    && (CURRENT_JSON_KEY in old(storage.objects) ==> CURRENT_JSON_KEY in storage.objects)
    && (old(storage.IsCalm()) ==>
          storage.IsCalm() && storage.installs == old(storage.installs)
          && (CURRENT_JSON_KEY in old(storage.objects) ==>
                storage.objects[CURRENT_JSON_KEY] == old(storage.objects)[CURRENT_JSON_KEY]))
  }

  method ListNodes(storage: Storage) returns (r: Result<seq<string>, StorageError>)
    requires storage.Valid()
    modifies storage
    ensures Unharmed(storage) && Without(old(storage.objects), storage.objects, [])
    ensures storage.Valid() && storage.Evolves(CURRENT_JSON_KEY) && storage.InstallsNothing()
    ensures r.Ok? ==> r.value == ListingOf(old(storage.objects))
    ensures old(storage.IsCalm()) ==> r.Ok? && storage.IsCalm() && storage.objects == old(storage.objects)
  {
    r := storage.ListAll(NODES_PREFIX);
    if r.Ok? {
      NodesAreListed(old(storage.objects), storage.objects, r.value);
      ListingIsUnique(r.value, ListingOf(old(storage.objects)), old(storage.objects));
    }
  }

  method DeleteNode(storage: Storage, key: string) returns (r: Result<(), StorageError>)
    requires storage.Valid() && key != CURRENT_JSON_KEY
    modifies storage
    ensures Unharmed(storage)
    ensures Without(old(storage.objects), storage.objects, [key])
         || (r.Err? && Without(old(storage.objects), storage.objects, []))
    ensures old(storage.IsCalm()) ==> r.Ok?
  {
    r := storage.DeleteObject(key);
  }

  lemma WithoutMore(before: Objects, middle: Objects, after: Objects,
                    gone: seq<string>, more: seq<string>)
    requires Without(before, middle, gone) && Without(middle, after, more)
    ensures Without(before, after, gone + more)
  {
  }

  lemma WithoutNothing(objects: Objects)
    ensures Without(objects, objects, [])
  {
  }

  /** Delete one more file than the ones already `gone`, or stop with those. */
  method DropNode(storage: Storage, key: string, ghost before: Objects, ghost gone: seq<string>)
    returns (r: Result<(), StorageError>)
    requires storage.Valid() && key != CURRENT_JSON_KEY && Without(before, storage.objects, gone)
    modifies storage
    ensures Unharmed(storage)
    ensures Without(before, storage.objects, gone + [key]) || (r.Err? && Without(before, storage.objects, gone))
    ensures old(storage.IsCalm()) ==> r.Ok?
  {
    hide Without;
    ghost var middle := storage.objects;
    r := DeleteNode(storage, key);
    if Without(middle, storage.objects, [key]) {
      WithoutMore(before, middle, storage.objects, gone, [key]);
    } else {
      WithoutMore(before, middle, storage.objects, gone, []);
      assert gone + [] == gone;
    }
  }

  lemma StoppedEarly(before: Objects, after: Objects, keys: seq<string>, i: nat, pointer: CurrentJson, now: Time, grace: Time)
    requires IsListing(keys, before) && i < |keys| && forall k :: k in keys ==> k in before
    requires Without(before, after, Select(keys[..i], before, pointer, now, grace, Doomed))
          || Without(before, after, Select(keys[..i + 1], before, pointer, now, grace, Doomed))
    ensures OnlyDoomedGone(before, after, pointer, now, grace) && NothingAdded(before, after)
  {
    hide Select, Without, IsListing, OnlyDoomedGone, NothingAdded;
    var n := if Without(before, after, Select(keys[..i], before, pointer, now, grace, Doomed)) then i else i + 1;
    SelectedAreDoomed(before, after, keys, n, Select(keys[..n], before, pointer, now, grace, Doomed), pointer, now, grace);
  }

  lemma SelectedAreDoomed(before: Objects, after: Objects, keys: seq<string>, i: nat,
                          gone: seq<string>, pointer: CurrentJson, now: Time, grace: Time)
    requires IsListing(keys, before) && i <= |keys| && forall k :: k in keys[..i] ==> k in before
    requires Without(before, after, gone)
    requires forall k :: k in gone ==> k in Select(keys[..i], before, pointer, now, grace, Doomed)
    ensures OnlyDoomedGone(before, after, pointer, now, grace) && NothingAdded(before, after)
  {
    hide Classify, Select, Less, HasPrefix;
    SelectMembers(keys[..i], before, pointer, now, grace, Doomed);
  }

  /** The class of each listed file decides; a dry run reports the same and deletes nothing. A run that stops
      early has deleted nothing but doomed files. */
  method Cleanup(storage: Storage, pointer: CurrentJson, now: Time, grace: Time, dryRun: bool)
    returns (r: Result<Report, StorageError>)
    requires storage.Valid()
    modifies storage
    ensures Unharmed(storage)
    ensures r.Ok? ==> r.value == FullReport(ListingOf(old(storage.objects)), old(storage.objects), pointer, now, grace)
    ensures r.Ok? ==> Without(old(storage.objects), storage.objects, if dryRun then [] else r.value.deleted)
    ensures OnlyDoomedGone(old(storage.objects), storage.objects, pointer, now, grace)
    ensures NothingAdded(old(storage.objects), storage.objects)
    ensures dryRun ==> Without(old(storage.objects), storage.objects, [])
    ensures old(storage.IsCalm()) ==> r.Ok?
  {
    hide Classify, Less, HasPrefix, Select, Without, OnlyDoomedGone, NothingAdded, IsListing, ListingOf;
    ghost var before := storage.objects;
    ghost var keys := ListingOf(before);
    ListingIsListing(before);
    WithoutNothing(before);
    var listed := ListNodes(storage);
    SelectedAreDoomed(before, storage.objects, keys, 0, [], pointer, now, grace);
    if listed.Err? {
      return Err(listed.error);
    }
    var entries := listed.value;
    var report := Report([], [], []);
    NothingSelected(before, pointer, now, grace);
    assert entries[..0] == [];
    for i := 0 to |entries|
      invariant Unharmed(storage)
      invariant forall k :: k in entries[..i] ==> k in before
      invariant report == FullReport(entries[..i], before, pointer, now, grace)
      invariant Without(before, storage.objects, if dryRun then [] else report.deleted)
    {
      var key := entries[i];
      EntryIsThere(before, storage.objects, entries, i, if dryRun then [] else report.deleted, pointer, now, grace);
      var fate := Classify(key, storage.objects[key].created, pointer, now, grace);
      SelectAppend(entries, i, before, pointer, now, grace);
      if fate.Doomed? {
        if !dryRun {
          var deleted := DropNode(storage, key, before, report.deleted);
          if deleted.Err? {
            StoppedEarly(before, storage.objects, entries, i, pointer, now, grace);
            return Err(deleted.error);
          }
        }
        report := report.(deleted := report.deleted + [key]);
      } else if fate.TooYoung? {
        report := report.(skippedWithinGrace := report.skippedWithinGrace + [key]);
      } else if fate.Unrecognized? {
        report := report.(skippedUnrecognized := report.skippedUnrecognized + [key]);
      }
    }
    assert entries[..|entries|] == entries;
    SelectedAreDoomed(before, storage.objects, entries, |entries|, if dryRun then [] else report.deleted, pointer, now, grace);
    r := Ok(report);
  }

  lemma ListingIsListing(objects: Objects)
    ensures IsListing(ListingOf(objects), objects)
  {
    hide IsListing;
  }

  lemma NothingSelected(objects: Objects, pointer: CurrentJson, now: Time, grace: Time)
    ensures FullReport([], objects, pointer, now, grace) == Report([], [], [])
  {
  }

  /** The next entry is still there, and is a node file. */
  lemma EntryIsThere(before: Objects, after: Objects, keys: seq<string>, i: nat,
                     gone: seq<string>, pointer: CurrentJson, now: Time, grace: Time)
    requires IsListing(keys, before) && i < |keys| && forall k :: k in keys[..i] ==> k in before
    requires Without(before, after, gone)
    requires forall k :: k in gone ==> k in Select(keys[..i], before, pointer, now, grace, Doomed)
    ensures keys[i] != CURRENT_JSON_KEY && keys[i] in before && keys[i] in after && after[keys[i]] == before[keys[i]]
    ensures forall k :: k in keys ==> k in before
  {
    hide Classify, Select, Less, HasPrefix;
    assert keys[i] in keys;
    PointerIsNotANode(keys[i]);
    NotYetSelected(keys, i, before, pointer, now, grace);
  }

  ghost function ListingOf(objects: Objects): (keys: seq<string>)
    ensures IsListing(keys, objects)
  {
    ListingExists(objects);
    var keys :| IsListing(keys, objects);
    keys
  }

  lemma ListingExists(objects: Objects)
    ensures exists keys :: IsListing(keys, objects)
  {
    var keys := SortedUnder(objects.Keys);
    assert IsListing(keys, objects);
  }

  lemma SortedUnder(all: set<string>) returns (keys: seq<string>)
    ensures Ascending(keys) && forall k :: k in keys <==> k in all && HasPrefix(k, NODES_PREFIX)
  {
    if all == {} {
      keys := [];
    } else {
      var k :| k in all;
      keys := SortedUnder(all - {k});
      if HasPrefix(k, NODES_PREFIX) {
        InsertNameAscending(keys, k);
        keys := InsertName(keys, k);
      }
    }
  }

  lemma NodesAreListed(before: Objects, now: Objects, keys: seq<string>)
    requires forall k :: k != CURRENT_JSON_KEY ==> (k in now <==> k in before)
    requires Ascending(keys) && forall k :: k in keys <==> k in now && HasPrefix(k, NODES_PREFIX)
    ensures IsListing(keys, before)
  {
    forall k | HasPrefix(k, NODES_PREFIX) ensures k in now <==> k in before {
      PointerIsNotANode(k);
    }
  }

  lemma NotYetSelected(keys: seq<string>, i: nat, objects: Objects, pointer: CurrentJson, now: Time,
                       grace: Time)
    requires i < |keys| && Ascending(keys) && forall k :: k in keys ==> k in objects
    ensures forall k :: k in keys[..i] ==> k in objects
    ensures keys[i] !in Select(keys[..i], objects, pointer, now, grace, Doomed)
  {
    hide Classify, Select, Less;
    SelectMembers(keys[..i], objects, pointer, now, grace, Doomed);
    LessIrreflexive(keys[i]);
  }

  // -------------------------------------------------------------------
  // What cleanup guarantees
  // -------------------------------------------------------------------

  function Count(b: bool): nat {
    if b then 1 else 0
  }

  /** Every listed file is exactly one of retained, too young, unrecognized or deleted. */
  lemma EveryFileHasOneFate(objects: Objects, pointer: CurrentJson, now: Time, grace: Time, key: string)
    requires key in objects && HasPrefix(key, NODES_PREFIX)
    ensures var report := FullReport(ListingOf(objects), objects, pointer, now, grace);
            var kept := ParseNodeKey(key).Some? && ParseNodeKey(key).value.id in Retained(pointer);
            Count(kept) + Count(key in report.deleted) + Count(key in report.skippedWithinGrace)
            + Count(key in report.skippedUnrecognized) == 1
  {
    var keys := ListingOf(objects);
    SelectMembers(keys, objects, pointer, now, grace, Doomed);
    SelectMembers(keys, objects, pointer, now, grace, TooYoung);
    SelectMembers(keys, objects, pointer, now, grace, Unrecognized);
    hide Select, ParseNodeKey, HasPrefix;
  }

  /** After a completed cleanup without grace only retained or unrecognized node files are left. */
  lemma ZeroGraceLeavesOnlyRetained(before: Objects, after: Objects,
                                    pointer: CurrentJson, now: Time, key: string)
    requires Without(before, after, FullReport(ListingOf(before), before, pointer, now, 0).deleted)
    requires key in after && HasPrefix(key, NODES_PREFIX)
    ensures ParseNodeKey(key).None? || ParseNodeKey(key).value.id in Retained(pointer)
  {
    PointerIsNotANode(key);
    SelectMembers(ListingOf(before), before, pointer, now, 0, Doomed);
    hide Select, ParseNodeKey, HasPrefix;
  }

  /** No cleanup ever deletes a file of a generation that `current.json` refers to. */
  lemma RetainedFilesSurvive(before: Objects, after: Objects, pointer: CurrentJson,
                             now: Time, grace: Time, k: Key)
    requires OnlyDoomedGone(before, after, pointer, now, grace) && KeyOk(k) && k.id in Retained(pointer)
    requires NodeObjectKey(k) in before
    ensures NodeObjectKey(k) in after && after[NodeObjectKey(k)] == before[NodeObjectKey(k)]
  {
    ParseAfterPrint(k);
    NodeKeyHasPrefix(k);
    PointerIsNotANode(NodeObjectKey(k));
    hide ParseNodeKey, NodeObjectKey, KeyOk, HasPrefix;
  }

  lemma NodeKeyHasPrefix(k: Key)
    ensures HasPrefix(NodeObjectKey(k), NODES_PREFIX)
  {
  }

  lemma {:induction false} SelectAscending(keys: seq<string>, objects: Objects, pointer: CurrentJson,
                                           now: Time, grace: Time, fate: Class)
    requires Ascending(keys) && forall k :: k in keys ==> k in objects
    ensures Ascending(Select(keys, objects, pointer, now, grace, fate))
    decreases |keys|
  {
    hide Classify, Less;
    if |keys| > 0 {
      var shorter, last := keys[..|keys| - 1], keys[|keys| - 1];
      SelectAscending(shorter, objects, pointer, now, grace, fate);
      SelectMembers(shorter, objects, pointer, now, grace, fate);
      var chosen := Select(shorter, objects, pointer, now, grace, fate);
      forall i | 0 <= i < |chosen| ensures Less(chosen[i], last) {
        assert chosen[i] in shorter;
        var k :| 0 <= k < |shorter| && shorter[k] == chosen[i];
        assert Less(keys[k], keys[|keys| - 1]);
      }
    }
  }

  /** `after` is `before` with more files of retained generations, and perhaps another pointer. */
  ghost predicate OnlyRetainedAdded(before: Objects, after: Objects,
                                    pointer: CurrentJson)
  {
    && (forall k :: k in before && k != CURRENT_JSON_KEY ==> k in after && after[k] == before[k])
    && forall k :: k in after && k !in before && k != CURRENT_JSON_KEY ==>
         ParseNodeKey(k).Some? && ParseNodeKey(k).value.id in Retained(pointer)
  }

  /** A dry run, which uploads nothing, reports the same as the real run after its uploads. */
  lemma DryRunReportIsFaithful(before: Objects, after: Objects, pointer: CurrentJson,
                               now: Time, grace: Time)
    requires OnlyRetainedAdded(before, after, pointer)
    ensures FullReport(ListingOf(after), after, pointer, now, grace) == FullReport(ListingOf(before), before, pointer, now, grace)
  {
    hide Select, Classify, ParseNodeKey, HasPrefix, Less;
    SameSelection(before, after, pointer, now, grace, Doomed);
    SameSelection(before, after, pointer, now, grace, TooYoung);
    SameSelection(before, after, pointer, now, grace, Unrecognized);
  }

  lemma SameSelection(before: Objects, after: Objects, pointer: CurrentJson,
                      now: Time, grace: Time, fate: Class)
    requires OnlyRetainedAdded(before, after, pointer) && fate != Kept
    ensures Select(ListingOf(after), after, pointer, now, grace, fate)
         == Select(ListingOf(before), before, pointer, now, grace, fate)
  {
    hide Select, ParseNodeKey, HasPrefix, Less;
    var a, b := ListingOf(after), ListingOf(before);
    SelectAscending(a, after, pointer, now, grace, fate);
    SelectAscending(b, before, pointer, now, grace, fate);
    SelectMembers(a, after, pointer, now, grace, fate);
    SelectMembers(b, before, pointer, now, grace, fate);
    var s, t := Select(a, after, pointer, now, grace, fate), Select(b, before, pointer, now, grace, fate);
    forall k ensures k in s <==> k in t {
      assert HasPrefix(k, NODES_PREFIX) ==> k != CURRENT_JSON_KEY by {
        if HasPrefix(k, NODES_PREFIX) { PointerIsNotANode(k); }
      }
    }
    AscendingUnique(s, t);
  }

  /** The recognized node files of a bucket, as the protocol lists them. */
  ghost function Entries(objects: Objects): map<Key, Time> {
    map k: Key | k in KeysOf(objects) :: objects[NodeObjectKey(k)].created
  }

  ghost function KeysOf(objects: Objects): (keys: set<Key>)
    ensures forall k :: k in keys ==> NodeObjectKey(k) in objects
  {
    var keys := set name | name in objects && ParseNodeKey(name).Some? :: ParseNodeKey(name).value;
    assert forall k :: k in keys ==> NodeObjectKey(k) in objects by {
      forall k | k in keys ensures NodeObjectKey(k) in objects {
        var name :| name in objects && ParseNodeKey(name).Some? && ParseNodeKey(name).value == k;
        PrintAfterParse(name);
      }
    }
    keys
  }

  /** Cleanup deletes exactly the files that the protocol's cleaning step dooms. */
  lemma DeletesWhatTheProtocolDooms(objects: Objects, pointer: CurrentJson, now: Time, grace: Time, k: Key)
    requires KeyOk(k) && NodeObjectKey(k) in objects
    ensures NodeObjectKey(k) in FullReport(ListingOf(objects), objects, pointer, now, grace).deleted
       <==> k in Protocol.DoomedKeys(Entries(objects), pointer, now, grace)
  {
    var keys, name := ListingOf(objects), NodeObjectKey(k);
    NodeKeyHasPrefix(k);
    ParseAfterPrint(k);
    SelectMembers(keys, objects, pointer, now, grace, Doomed);
    hide Select, HasPrefix, KeyOk, NodeObjectKey, ParseNodeKey;
    assert k in KeysOf(objects);
  }

  /** What becomes of each name: one that prints no valid key is unrecognized; a key of a retained generation is kept;
      any other is deleted iff it is at least the grace period old. */
  lemma ClassifiedExactly(name: string, created: Time, pointer: CurrentJson, now: Time, grace: Time)
    ensures var fate := Classify(name, created, pointer, now, grace);
            && (fate.Unrecognized? <==> forall k :: NodeObjectKey(k) == name ==> !KeyOk(k))
            && forall k :: NodeObjectKey(k) == name && KeyOk(k) ==>
                 && (fate.Kept? <==> k.id in Retained(pointer))
                 && (fate.Doomed? <==> k.id !in Retained(pointer)
                                       && (created + grace <= now || grace == 0))
  {
    hide KeyOk, ParseNodeKey, NodeObjectKey;
    if ParseNodeKey(name).Some? {
      PrintAfterParse(name);
    }
    forall k | NodeObjectKey(k) == name && KeyOk(k) ensures ParseNodeKey(name) == Some(k) {
      ParseAfterPrint(k);
    }
  }
}
