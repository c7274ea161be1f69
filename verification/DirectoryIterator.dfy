/**
 `corsoDirectoryIterator`, the state machine that lists one directory.  Repeated calls of
 `Next` yield exactly the listing of KopiaDirs, in order, and then nothing.
 */
module DirectoryIterator {
  import opened Wrappers
  import opened PathEscaping
  import opened MergeModel
  import opened BaseTraversal
  import opened KopiaDirs
  import opened Progress

  const INIT_PHASE := 0
  const STATIC_ENTS_PHASE := 1
  const PRE_STREAM_ENTS_PHASE := 2
  const STREAM_ENTS_PHASE := 3
  const POST_STREAM_ENTS_PHASE := 4
  const PRE_BASE_DIR_ENTS_PHASE := 5
  const BASE_DIR_ENTS_PHASE := 6
  const POST_BASE_DIR_ENTS_PHASE := 7
  const TERMINATION_PHASE := 8

  /**
   What may go wrong outside: the context is cancelled after some items were received,
   the base directory cannot be opened, its iterator fails after some entries.
   */
  datatype Faults = Faults(streamStops: Option<nat>, baseClosed: bool, baseStops: Option<nat>)

  const NO_FAULTS := Faults(None, false, None)

  function Received<T>(s: seq<T>, stop: Option<nat>): seq<T> {
    if stop.Some? && stop.value < |s| then s[..stop.value] else s
  }

  /** The registration that goes with a file; `isMeta` is `IsMetadataFile`. */
  ghost function PutOf(file: Emitted, location: Option<Elements>, isMeta: Elements -> bool): seq<Put> {
    match file
    case Streamed(dir, item) =>
      var repo := Extend(dir, item.id);
      if item.hasInfo then [Put(KeyOf(repo), ItemDetails(true, repo, Some(repo), location, false, item.modTime))]
          else []
    case FromBase(dir, name, prevDir, modTime) =>
      var repo := Extend(dir, name);
      if isMeta(repo) then []
      else [Put(KeyOf(repo), ItemDetails(false, repo, Some(Extend(prevDir, name)), location, false, modTime))]
  }

  ghost function LocationOf(c: Option<Collection>): Option<Elements> {
    if c.Some? && c.value.locations.Some? then c.value.locations.value.current else None
  }

  /** The path of an item; an empty name adds nothing. */
  ghost predicate IsItemPath(p: Elements, dir: Elements, name: string) {
    if name == "" then p == dir else |p| == |dir| + 1 && p[..|dir|] == dir && p[|dir|] == name
  }

  /** The collection of the directory knows its current location, and this is it. */
  ghost predicate KnownLocation(n: Node, location: Elements) {
    exists c, ls :: n.collection == Some(c) && c.locations == Some(ls) && ls.current == Some(location)
  }

  /**
   The tracker is told `put` about file `f` of the directory: under the path without its
   first element, with that path, the path the item's details are found under, the location
   of the directory, and the time of the item.
   */
  ghost predicate Told(n: Node, isMeta: Elements -> bool, f: Emitted, put: Put) {
    var d := put.details;
    && !d.cached
    && (if d.repoPath == [] then put.key == [] else [d.repoPath[0]] + put.key == d.repoPath)
    && (forall location :: d.locationPath == Some(location) <==> KnownLocation(n, location))
    && match f
       case Streamed(dir, item) =>
         && item.hasInfo && d.infoer && d.modTime == item.modTime
         && IsItemPath(d.repoPath, dir, item.id) && d.prevPath == Some(d.repoPath)
       case FromBase(dir, name, prevDir, modTime) =>
         && !isMeta(d.repoPath) && !d.infoer && d.modTime == modTime
         && IsItemPath(d.repoPath, dir, name) && d.prevPath.Some? && IsItemPath(d.prevPath.value, prevDir, name)
  }

  /** Each file is registered at most once, with what the tracker must be told about it. */
  lemma PutOfIs(n: Node, isMeta: Elements -> bool, f: Emitted, put: Put)
    ensures put in PutOf(f, LocationOf(n.collection), isMeta) <==> Told(n, isMeta, f, put)
    ensures |PutOf(f, LocationOf(n.collection), isMeta)| <= 1
  {
    var location := LocationOf(n.collection);
    forall l
      ensures location == Some(l) <==> KnownLocation(n, l)
    {
    }
    if Told(n, isMeta, f, put) {
      assert put.details.locationPath == location by {
        if location.Some? {
          assert KnownLocation(n, location.value);
        }
      }
      ItemPathIs(put.details.repoPath, f.dir, if f.Streamed? then f.item.id else f.name);
      if f.FromBase? {
        ItemPathIs(put.details.prevPath.value, f.prevDir, f.name);
      }
    }
  }

  /** What was told about the entry that was returned: nothing, or what belongs to a file. */
  ghost predicate ToldOnly(n: Node, isMeta: Elements -> bool, ent: Option<Entry>, news: seq<Put>) {
    && |news| <= 1
    && forall put :: put in news <==> ent.Some? && ent.value.File? && Told(n, isMeta, ent.value.file, put)
  }

  lemma ItemPathIs(p: Elements, dir: Elements, name: string)
    ensures IsItemPath(p, dir, name) <==> p == Extend(dir, name)
  {
  }

  /** What is still to be listed, by source. */
  datatype Parts = Parts(statics: seq<Entry>, stream: seq<Entry>, base: seq<Entry>)
  {
    function All(): seq<Entry> {
      statics + stream + base
    }
  }

  /** `x` is the next entry of the first source that has one. */
  predicate Yields(before: Parts, x: Entry, after: Parts) {
    || before == after.(statics := [x] + after.statics)
    || (after.statics == [] && before == after.(stream := [x] + after.stream))
    || (after.statics == [] && after.stream == [] && before == after.(base := [x] + after.base))
  }

  lemma YieldsFirst(before: Parts, x: Entry, after: Parts)
    requires Yields(before, x, after)
    ensures before.All() == [x] + after.All()
  {
  }

  class CorsoDirectoryIterator {
    const params: Node
    const staticEnts: seq<KopiaDir>
    const globalExcludeSet: Excludes
    const isMeta: Elements -> bool
    const faults: Faults

    var currentPhase: nat
    var staticEntsIdx: nat
    var streamItemsChan: seq<Item>
    var baseDirIter: seq<BaseEntry>
    var seenEnts: set<string>
    var excludeSet: set<string>
    var locationPath: Option<Elements>

    /** Calls to the progress tracker and errors added to the fault bus so far. */
    var puts: seq<Put>
    var errors: nat

    constructor (d: KopiaDir, globalExcludeSet: Excludes, isMeta: Elements -> bool, faults: Faults)
      requires Ready(d.params)
      ensures Valid() && currentPhase == INIT_PHASE && puts == [] && errors == 0
      ensures params == d.params && this.isMeta == isMeta
      ensures Remaining() == ListingWith(d, globalExcludeSet, faults)
      ensures ErrorsLeft() == FaultCount(d.params, faults)
    {
      params, staticEnts := d.params, d.staticEnts;
      this.globalExcludeSet, this.isMeta, this.faults := globalExcludeSet, isMeta, faults;
      currentPhase, staticEntsIdx := INIT_PHASE, 0;
      streamItemsChan, baseDirIter := [], [];
      seenEnts, excludeSet, locationPath := {}, {}, None;
      puts, errors := [], 0;
      new;
      assert staticEnts[0..] == staticEnts;
      assert seenEnts + Ids(Items(params, faults)) == Ids(Items(params, faults));
    }

    ghost predicate Valid()
      reads this
    {
      && Ready(params)
      && currentPhase <= TERMINATION_PHASE
      && staticEntsIdx <= |staticEnts|
      && (currentPhase > STATIC_ENTS_PHASE ==> staticEntsIdx == |staticEnts|)
      && (currentPhase <= PRE_STREAM_ENTS_PHASE ==> seenEnts == {} && locationPath == None)
      && (currentPhase == STREAM_ENTS_PHASE ==> params.collection.Some?)
      && (currentPhase == BASE_DIR_ENTS_PHASE ==>
            && params.baseDir.Some? && !faults.baseClosed
            && excludeSet == globalExcludeSet(Print(params.currentPath.value)))
      && (STREAM_ENTS_PHASE <= currentPhase <= BASE_DIR_ENTS_PHASE ==> locationPath == LocationOf(params.collection))
    }

    /** Items the collection will still deliver. */
    ghost function ItemsLeft(): seq<Item>
      reads this
    {
      if currentPhase <= PRE_STREAM_ENTS_PHASE then Items(params, faults)
      else if currentPhase == STREAM_ENTS_PHASE then streamItemsChan
      else []
    }

    ghost function BaseLeft(): seq<BaseEntry>
      reads this
    {
      if currentPhase <= PRE_BASE_DIR_ENTS_PHASE then BaseItems(params, faults)
      else if currentPhase == BASE_DIR_ENTS_PHASE then baseDirIter
      else []
    }

    /** Failures that are still to be met, each to be recorded once. */
    ghost function ErrorsLeft(): nat
      reads this
    {
      (if currentPhase <= STREAM_ENTS_PHASE && params.collection.Some? && faults.streamStops.Some? then 1 else 0)
      + (if currentPhase <= PRE_BASE_DIR_ENTS_PHASE && params.baseDir.Some? && faults.baseClosed then 1 else 0)
      + (if currentPhase <= BASE_DIR_ENTS_PHASE && params.baseDir.Some? && !faults.baseClosed &&
          faults.baseStops.Some? then 1 else 0)
    }

    ghost function Left(): Parts
      reads this
      requires Valid()
    {
      Parts(StaticEntries(staticEnts[staticEntsIdx..]),
            StreamListing(params, ItemsLeft()),
            BaseListing(params, seenEnts + Ids(ItemsLeft()), globalExcludeSet, BaseLeft()))
    }

    /** What later calls of `Next` will return. */
    ghost function Remaining(): seq<Entry>
      reads this
      requires Valid()
    {
      Left().All()
    }

    method Next() returns (ent: Option<Entry>)
      requires Valid()
      modifies this
      ensures Valid() && old(currentPhase) <= currentPhase
      ensures ent.Some? ==> old(Remaining()) == [ent.value] + Remaining()
      ensures ent.None? ==> old(Remaining()) == [] && Remaining() == [] && currentPhase == TERMINATION_PHASE
      ensures puts == old(puts) + PutsFor(ent) && errors + ErrorsLeft() == old(errors + ErrorsLeft())
      ensures ToldOnly(params, isMeta, ent, puts[|old(puts)|..])
    {
      ghost var start := Left();
      while currentPhase != TERMINATION_PHASE
        invariant Valid() && old(currentPhase) <= currentPhase
        invariant Left() == start && puts == old(puts) && errors + ErrorsLeft() == old(errors + ErrorsLeft())
        decreases TERMINATION_PHASE - currentPhase
      {
        ent := Phase();
        if ent.Some? {
          YieldsFirst(start, ent.value, Left());
          PutsForIs(ent);
          return;
        }
      }
      ent := None;
    }

    ghost function PutsFor(ent: Option<Entry>): seq<Put>
    {
      match ent
      case Some(File(f)) => PutOf(f, LocationOf(params.collection), isMeta)
      case _ => []
    }

    lemma PutsForIs(ent: Option<Entry>)
      ensures ToldOnly(params, isMeta, ent, PutsFor(ent))
    {
      forall put
        ensures put in PutsFor(ent) <==> ent.Some? && ent.value.File? && Told(params, isMeta, ent.value.file, put)
      {
        if ent.Some? && ent.value.File? {
          PutOfIs(params, isMeta, ent.value.file, put);
        }
      }
      if ent.Some? && ent.value.File? {
        PutOfIs(params, isMeta, ent.value.file, Put([], ItemDetails(false, [], None, None, false, 0)));
      }
    }

    /** The registrations that go with what was listed. */
    ghost function PutsForAll(entries: seq<Entry>): seq<Put> {
      if entries == [] then [] else PutsForAll(entries[..|entries| - 1]) + PutsFor(Some(entries[|entries| - 1]))
    }

    /** The registrations are those the tracker must be told about the listed files. */
    lemma {:induction false} PutsAreTold(entries: seq<Entry>, put: Put)
      ensures put in PutsForAll(entries) <==> exists f :: File(f) in entries && Told(params, isMeta, f, put)
    {
      if entries != [] {
        var init, last := entries[..|entries| - 1], entries[|entries| - 1];
        PutsAreTold(init, put);
        assert entries == init + [last];
        if last.File? {
          PutOfIs(params, isMeta, last.file, put);
        }
      }
    }

    lemma PutsStep(entries: seq<Entry>, ent: Option<Entry>)
      ensures ent.Some? ==> PutsForAll(entries + [ent.value]) == PutsForAll(entries) + PutsFor(ent)
    {
      if ent.Some? {
        assert (entries + [ent.value])[..|entries|] == entries;
      }
    }

    /** One pass through the switch: an entry is returned, or the phase advances. */
    method Phase() returns (ent: Option<Entry>)
      requires Valid() && currentPhase != TERMINATION_PHASE
      modifies this
      ensures Valid() && old(currentPhase) <= currentPhase
      ensures ent.Some? ==> Yields(old(Left()), ent.value, Left())
      ensures ent.None? ==> Left() == old(Left()) && old(currentPhase) < currentPhase
      ensures puts == old(puts) + PutsFor(ent) && errors + ErrorsLeft() == old(errors + ErrorsLeft())
    {
      ent := None;
      if currentPhase == INIT_PHASE {
        currentPhase := STATIC_ENTS_PHASE;
      } else if currentPhase == STATIC_ENTS_PHASE {
        ent := NextStaticEnt();
      } else if currentPhase == PRE_STREAM_ENTS_PHASE {
        PreStreamEnts();
      } else if currentPhase == STREAM_ENTS_PHASE {
        ent := StreamEnts();
      } else if currentPhase == POST_STREAM_ENTS_PHASE {
        streamItemsChan := [];
        currentPhase := PRE_BASE_DIR_ENTS_PHASE;
      } else if currentPhase == PRE_BASE_DIR_ENTS_PHASE {
        PreBaseDirEnts();
      } else if currentPhase == BASE_DIR_ENTS_PHASE {
        ent := BaseDirEnts();
      } else {
        PostBaseDirEnts();
      }
    }

    method NextStaticEnt() returns (ent: Option<Entry>)
      requires Valid() && currentPhase == STATIC_ENTS_PHASE
      modifies this`currentPhase, this`staticEntsIdx
      ensures Valid() && old(currentPhase) <= currentPhase
      ensures ent.Some? ==> ent.value.SubDir? && Yields(old(Left()), ent.value, Left())
      ensures ent.None? ==> Left() == old(Left()) && old(currentPhase) < currentPhase
      ensures ErrorsLeft() == old(ErrorsLeft())
    {
      if staticEntsIdx < |staticEnts| {
        ent := Some(SubDir(staticEnts[staticEntsIdx]));
        staticEntsIdx := staticEntsIdx + 1;
        return;
      }
      currentPhase := PRE_STREAM_ENTS_PHASE;
      ent := None;
    }

    method StreamEnts() returns (ent: Option<Entry>)
      requires Valid() && currentPhase == STREAM_ENTS_PHASE
      modifies this
      ensures Valid() && old(currentPhase) <= currentPhase
      ensures ent.Some? ==> Yields(old(Left()), ent.value, Left())
      ensures ent.None? ==> Left() == old(Left()) && old(currentPhase) < currentPhase
      ensures puts == old(puts) + PutsFor(ent) && errors + ErrorsLeft() == old(errors + ErrorsLeft())
    {
      var failed;
      ent, failed := NextStreamEnt();
      if ent.Some? {
        return;
      }
      if failed {
        errors := errors + 1;
      }
      currentPhase := POST_STREAM_ENTS_PHASE;
    }

    method BaseDirEnts() returns (ent: Option<Entry>)
      requires Valid() && currentPhase == BASE_DIR_ENTS_PHASE
      modifies this
      ensures Valid() && old(currentPhase) <= currentPhase
      ensures ent.Some? ==> Yields(old(Left()), ent.value, Left())
      ensures ent.None? ==> Left() == old(Left()) && old(currentPhase) < currentPhase
      ensures puts == old(puts) + PutsFor(ent) && errors + ErrorsLeft() == old(errors + ErrorsLeft())
    {
      var failed;
      ent, failed := NextBaseEnt();
      if ent.Some? {
        return;
      }
      if failed {
        errors := errors + 1;
      }
      currentPhase := POST_BASE_DIR_ENTS_PHASE;
    }

    method PostBaseDirEnts()
      requires Valid() && currentPhase == POST_BASE_DIR_ENTS_PHASE
      modifies this
      ensures Valid() && currentPhase == TERMINATION_PHASE
      ensures Left() == old(Left()) && puts == old(puts) && errors + ErrorsLeft() == old(errors + ErrorsLeft())
    {
      baseDirIter, seenEnts, excludeSet := [], {}, {};
      currentPhase := TERMINATION_PHASE;
    }

    method PreStreamEnts()
      requires Valid() && currentPhase == PRE_STREAM_ENTS_PHASE
      modifies this
      ensures Valid() && old(currentPhase) < currentPhase
      ensures Left() == old(Left()) && puts == old(puts) && errors + ErrorsLeft() == old(errors + ErrorsLeft())
    {
      if params.collection.None? {
        currentPhase := PRE_BASE_DIR_ENTS_PHASE;
        return;
      }
      if params.collection.value.locations.Some? {
        locationPath := params.collection.value.locations.value.current;
      }
      streamItemsChan := Received(params.collection.value.items, faults.streamStops);
      seenEnts := {};
      currentPhase := STREAM_ENTS_PHASE;
    }

    method PreBaseDirEnts()
      requires Valid() && currentPhase == PRE_BASE_DIR_ENTS_PHASE
      modifies this
      ensures Valid() && old(currentPhase) < currentPhase
      ensures Left() == old(Left()) && puts == old(puts) && errors + ErrorsLeft() == old(errors + ErrorsLeft())
    {
      if params.baseDir.None? {
        currentPhase := POST_BASE_DIR_ENTS_PHASE;
        return;
      }
      if faults.baseClosed {
        currentPhase := POST_BASE_DIR_ENTS_PHASE;
        errors := errors + 1;
        return;
      }
      baseDirIter := Received(params.baseDir.value.entries, faults.baseStops);
      excludeSet := globalExcludeSet(Print(params.currentPath.value));
      currentPhase := BASE_DIR_ENTS_PHASE;
    }

    /** Deletion markers are remembered and skipped. */
    method NextStreamEnt() returns (ent: Option<Entry>, failed: bool)
      requires Valid() && currentPhase == STREAM_ENTS_PHASE
      modifies this`streamItemsChan, this`seenEnts, this`puts
      ensures Valid() && failed == (ent.None? && faults.streamStops.Some?)
      ensures ent.Some? ==> Yields(old(Left()), ent.value, Left())
      ensures ent.None? ==> Left() == old(Left()) && streamItemsChan == []
      ensures puts == old(puts) + PutsFor(ent) && errors + ErrorsLeft() == old(errors + ErrorsLeft())
      ensures ToldOnly(params, isMeta, ent, puts[|old(puts)|..])
    {
      while streamItemsChan != []
        invariant Valid() && puts == old(puts)
        invariant Left() == old(Left())
        decreases |streamItemsChan|
      {
        var e := streamItemsChan[0];
        IdsStep(streamItemsChan, seenEnts);
        streamItemsChan := streamItemsChan[1..];
        seenEnts := seenEnts + {e.id};
        if e.deleted {
          continue;
        }
        if e.hasInfo {
          var itemPath := Extend(params.currentPath.value, e.id);
          var details := ItemDetails(true, itemPath, Some(itemPath), locationPath, false, e.modTime);
          puts := puts + [Put(KeyOf(itemPath), details)];
        }
        ent, failed := Some(File(Streamed(params.currentPath.value, e))), false;
        PutsForIs(ent);
        return;
      }
      return None, faults.streamStops.Some?;
    }

    /** Subdirectories are walked only below a pruned subtree; seen and excluded files are skipped. */
    method NextBaseEnt() returns (ent: Option<Entry>, failed: bool)
      requires Valid() && currentPhase == BASE_DIR_ENTS_PHASE
      modifies this`baseDirIter, this`puts
      ensures Valid() && failed == (ent.None? && faults.baseStops.Some?)
      ensures ent.Some? ==> Yields(old(Left()), ent.value, Left())
      ensures ent.None? ==> Left() == old(Left()) && baseDirIter == []
      ensures puts == old(puts) + PutsFor(ent) && errors + ErrorsLeft() == old(errors + ErrorsLeft())
      ensures ToldOnly(params, isMeta, ent, puts[|old(puts)|..])
    {
      var cur, prev := params.currentPath.value, params.prevPath.value;
      while baseDirIter != []
        invariant Valid() && puts == old(puts)
        invariant Left() == old(Left())
        decreases |baseDirIter|
      {
        var entry := baseDirIter[0];
        baseDirIter := baseDirIter[1..];
        if entry.Directory? {
          if !params.streamBaseEnts {
            continue;
          }
          var sub := Node(None, Some(entry), Some(Extend(cur, entry.name)), Some(Extend(prev, entry.name)),
              params.streamBaseEnts);
          return Some(SubDir(KopiaDir(entry.name, sub, []))), false;
        }
        if entry.name in seenEnts {
          continue;
        }
        if entry.name in excludeSet {
          continue;
        }
        var itemPath, prevItemPath := Extend(cur, entry.name), Extend(prev, entry.name);
        if !isMeta(itemPath) {
          var details := ItemDetails(false, itemPath, Some(prevItemPath), locationPath, false, entry.modTime);
          puts := puts + [Put(KeyOf(itemPath), details)];
        }
        ent, failed := Some(File(FromBase(cur, entry.name, prev, entry.modTime))), false;
        PutsForIs(ent);
        return;
      }
      return None, faults.baseStops.Some?;
    }
  }

  lemma IdsStep(items: seq<Item>, seen: set<string>)
    requires items != []
    ensures seen + Ids(items) == seen + {items[0].id} + Ids(items[1..])
  {
    assert items == [items[0]] + items[1..];
  }

  function Items(n: Node, faults: Faults): seq<Item> {
    if n.collection.None? then [] else Received(n.collection.value.items, faults.streamStops)
  }

  function BaseItems(n: Node, faults: Faults): seq<BaseEntry> {
    if n.baseDir.None? || faults.baseClosed then [] else Received(n.baseDir.value.entries, faults.baseStops)
  }

  ghost function StreamListing(n: Node, items: seq<Item>): seq<Entry>
    requires Ready(n)
  {
    if n.collection.None? then [] else StreamEntries(n.currentPath.value, items)
  }

  ghost function BaseListing(n: Node, seen: set<string>, excl: Excludes, entries: seq<BaseEntry>): seq<Entry>
    requires Ready(n)
  {
    if n.baseDir.None? then [] else BaseEntries(ViewOf(n, seen, excl), entries)
  }

  /** The listing of a directory, given what goes wrong. */
  ghost function ListingWith(d: KopiaDir, excl: Excludes, faults: Faults): seq<Entry>
    requires Ready(d.params)
  {
    StaticEntries(d.staticEnts)
    + StreamListing(d.params, Items(d.params, faults))
    + BaseListing(d.params, Ids(Items(d.params, faults)), excl, BaseItems(d.params, faults))
  }

  function FaultCount(n: Node, faults: Faults): nat {
    (if n.collection.Some? && faults.streamStops.Some? then 1 else 0)
    + (if n.baseDir.Some? && (faults.baseClosed || faults.baseStops.Some?) then 1 else 0)
  }

  /** Without faults a directory lists its children, then what its node emits. */
  lemma FaultlessListing(d: KopiaDir, excl: Excludes)
    requires Ready(d.params)
    ensures ListingWith(d, excl, NO_FAULTS) == StaticEntries(d.staticEnts) + OwnEntries(d.params, excl)
  {
    assert Ids(Items(d.params, NO_FAULTS)) == Seen(d.params.collection);
  }

  /** The `i`-th of a list is delivered before the source stops, if it does. */
  ghost predicate Delivered<T>(s: seq<T>, stop: Option<nat>, i: int, x: T) {
    0 <= i < |s| && s[i] == x && (stop.Some? ==> i < stop.value)
  }

  lemma ReceivedAre<T>(s: seq<T>, stop: Option<nat>, x: T)
    ensures x in Received(s, stop) <==> exists i :: Delivered(s, stop, i, x)
  {
    if x in Received(s, stop) {
      var i :| 0 <= i < |Received(s, stop)| && Received(s, stop)[i] == x;
      assert Delivered(s, stop, i, x);
    }
    if i :| Delivered(s, stop, i, x) {
      assert Received(s, stop)[i] == x;
    }
  }

  /** Whatever goes wrong, exactly the live items that were delivered are listed. */
  lemma DeliveredItemsAreListed(d: KopiaDir, excl: Excludes, faults: Faults, item: Item)
    requires Ready(d.params) && d.params.collection.Some?
    ensures File(Streamed(d.params.currentPath.value, item)) in ListingWith(d, excl, faults) <==>
      !item.deleted && exists i :: Delivered(d.params.collection.value.items, faults.streamStops, i, item)
  {
    var x := File(Streamed(d.params.currentPath.value, item));
    StaticAreDirs(d.staticEnts, x);
    StreamEntriesHold(d.params.currentPath.value, Items(d.params, faults), x);
    ReceivedAre(d.params.collection.value.items, faults.streamStops, item);
    if d.params.baseDir.Some? {
      BaseEntriesHold(ViewOf(d.params, Ids(Items(d.params, faults)), excl), BaseItems(d.params, faults), x);
    }
  }

  /** And exactly the base files that were delivered, and are neither named by a delivered item nor excluded. */
  lemma DeliveredFilesAreListed(d: KopiaDir, excl: Excludes, faults: Faults, name: string, modTime: int)
    requires Ready(d.params) && d.params.baseDir.Some?
    ensures File(FromBase(d.params.currentPath.value, name, d.params.prevPath.value, modTime))
            in ListingWith(d, excl, faults) <==>
      && !faults.baseClosed && NotDelivered(d.params, faults, name) && name !in excl(Print(d.params.currentPath.value))
      && exists i :: Delivered(d.params.baseDir.value.entries, faults.baseStops, i, BaseFile(name, modTime))
  {
    var cur, prev := d.params.currentPath.value, d.params.prevPath.value;
    var x := File(FromBase(cur, name, prev, modTime));
    var v := ViewOf(d.params, Ids(Items(d.params, faults)), excl);
    StaticAreDirs(d.staticEnts, x);
    if d.params.collection.Some? {
      StreamEntriesHold(cur, Items(d.params, faults), x);
    }
    BaseEntriesHold(v, BaseItems(d.params, faults), x);
    BaseFileListed(v, BaseItems(d.params, faults), name, modTime);
    ReceivedAre(d.params.baseDir.value.entries, faults.baseStops, BaseFile(name, modTime));
    NotDeliveredMeans(d.params, faults, name);
  }

  lemma BaseFileListed(v: BaseView, entries: seq<BaseEntry>, name: string, modTime: int)
    ensures (exists b :: b in entries && File(FromBase(v.cur, name, v.prev, modTime)) in BaseEntryOf(v, b)) <==>
      BaseFile(name, modTime) in entries && name !in v.seen && name !in v.excluded
  {
    if BaseFile(name, modTime) in entries && name !in v.seen && name !in v.excluded {
      assert File(FromBase(v.cur, name, v.prev, modTime)) in BaseEntryOf(v, BaseFile(name, modTime));
    }
  }

  /** No item of the name was delivered, deleted ones included. */
  ghost predicate NotDelivered(n: Node, faults: Faults, name: string) {
    n.collection.Some? ==>
      forall i, item :: Delivered(n.collection.value.items, faults.streamStops, i, item) ==> item.id != name
  }

  lemma NotDeliveredMeans(n: Node, faults: Faults, name: string)
    ensures NotDelivered(n, faults, name) <==> name !in Ids(Items(n, faults))
  {
    if n.collection.Some? {
      var items := n.collection.value.items;
      forall item
        ensures item in Received(items, faults.streamStops) <==>
          exists i :: Delivered(items, faults.streamStops, i, item)
      {
        ReceivedAre(items, faults.streamStops, item);
      }
    }
  }

  /** A name that any received item had, deleted or not, is never listed from the base directory. */
  lemma SeenNamesComeFromTheStream(d: KopiaDir, excl: Excludes, faults: Faults, item: Item, x: Entry)
    requires Ready(d.params) && item in Items(d.params, faults)
    requires x in ListingWith(d, excl, faults) && x.File? && x.file.FromBase?
    ensures x.file.name != item.id
  {
    StaticAreDirs(d.staticEnts, x);
    if d.params.collection.Some? {
      StreamEntriesHold(d.params.currentPath.value, Items(d.params, faults), x);
    }
    if d.params.baseDir.Some? {
      BaseEntriesHold(ViewOf(d.params, Ids(Items(d.params, faults)), excl), BaseItems(d.params, faults), x);
    }
  }

  lemma {:induction false} StaticAreDirs(dirs: seq<KopiaDir>, x: Entry)
    ensures x in StaticEntries(dirs) ==> x.SubDir?
  {
    if dirs != [] {
      StaticAreDirs(dirs[1..], x);
    }
  }

  /** kopia's loop over a directory: `Next` until it returns nil. */
  method List(it: CorsoDirectoryIterator) returns (entries: seq<Entry>)
    requires it.Valid() && it.puts == []
    modifies it
    ensures it.Valid() && it.currentPhase == TERMINATION_PHASE && it.Remaining() == []
    ensures entries == old(it.Remaining())
    ensures it.puts == it.PutsForAll(entries)
    ensures forall put :: put in it.puts <==> exists f :: File(f) in entries && Told(it.params, it.isMeta, f, put)
    ensures it.errors == old(it.errors + it.ErrorsLeft())
  {
    entries := [];
    var more := true;
    ghost var start, rest, failures := it.Remaining(), it.Remaining(), it.errors + it.ErrorsLeft();
    while more
      invariant it.Valid() && rest == it.Remaining()
      invariant entries + rest == start
      invariant !more ==> rest == [] && it.currentPhase == TERMINATION_PHASE
      invariant it.puts == it.PutsForAll(entries) && it.errors + it.ErrorsLeft() == failures
      decreases |rest|, more
    {
      var ent := it.Next();
      it.PutsStep(entries, ent);
      if ent.Some? {
        MoveOne(entries, ent.value, it.Remaining());
        entries := entries + [ent.value];
      } else {
        more := false;
      }
      rest := it.Remaining();
    }
    forall put
      ensures put in it.puts <==> exists f :: File(f) in entries && Told(it.params, it.isMeta, f, put)
    {
      it.PutsAreTold(entries, put);
    }
  }

  lemma MoveOne(done: seq<Entry>, x: Entry, rest: seq<Entry>)
    ensures done + ([x] + rest) == (done + [x]) + rest
  {
  }
}
