/**
 The directories handed to kopia: the parameters of a tree node and the directories built
 for its children.  Uploading walks their listings down to the files.
 */
module KopiaDirs {
  import opened Wrappers
  import opened PathEscaping
  import opened MergeModel
  import opened BaseTraversal

  datatype KopiaDir = KopiaDir(name: string, params: Node, staticEnts: seq<KopiaDir>)

  datatype Entry = SubDir(dir: KopiaDir) | File(file: Emitted)

  /** What the iterator dereferences is there. */
  ghost predicate Ready(n: Node) {
    && (n.collection.Some? ==> n.currentPath.Some?)
    && (n.baseDir.Some? ==> n.currentPath.Some? && n.prevPath.Some?)
  }

  // ---------------------------------------------------------------------------
  // Listings
  // ---------------------------------------------------------------------------

  function StaticEntries(dirs: seq<KopiaDir>): seq<Entry> {
    if dirs == [] then [] else [SubDir(dirs[0])] + StaticEntries(dirs[1..])
  }

  function StreamEntries(cur: Elements, items: seq<Item>): seq<Entry> {
    if items == [] then []
    else (if items[0].deleted then [] else [File(Streamed(cur, items[0]))]) + StreamEntries(cur, items[1..])
  }

  /** Where the entries of a base directory are, were, and which of them are left out. */
  datatype BaseView = BaseView(cur: Elements, prev: Elements, stream: bool, seen: set<string>, excluded: set<string>)

  /** A subdirectory of a streamed base directory has no collection and no children of its own. */
  function SubParams(v: BaseView, dir: BaseDir): Node {
    Node(None, Some(dir), Some(Extend(v.cur, dir.name)), Some(Extend(v.prev, dir.name)), v.stream)
  }

  function BaseEntryOf(v: BaseView, entry: BaseEntry): seq<Entry> {
    if entry.Directory? then
      if v.stream then [SubDir(KopiaDir(entry.name, SubParams(v, entry), []))] else []
    else if entry.name in v.seen || entry.name in v.excluded then []
    else [File(FromBase(v.cur, entry.name, v.prev, entry.modTime))]
  }

  function BaseEntries(v: BaseView, entries: seq<BaseEntry>): seq<Entry> {
    if entries == [] then [] else BaseEntryOf(v, entries[0]) + BaseEntries(v, entries[1..])
  }

  ghost function ViewOf(n: Node, seen: set<string>, excl: Excludes): BaseView
    requires n.currentPath.Some? && n.prevPath.Some?
  {
    BaseView(n.currentPath.value, n.prevPath.value, n.streamBaseEnts, seen, excl(Print(n.currentPath.value)))
  }

  /** The entries of a directory beside its children in the tree. */
  ghost function OwnEntries(n: Node, excl: Excludes): seq<Entry>
    requires Ready(n)
  {
    (if n.collection.None? then [] else StreamEntries(n.currentPath.value, n.collection.value.items))
    + (if n.baseDir.None? then [] else BaseEntries(ViewOf(n, Seen(n.collection), excl), n.baseDir.value.entries))
  }

  // ---------------------------------------------------------------------------
  // Uploads
  // ---------------------------------------------------------------------------

  function Top(base: Option<BaseDir>): BaseEntry {
    if base.Some? then base.value else BaseFile("", 0)
  }

  /** Walking the listing of a node reaches file `e`. */
  ghost predicate NodeUploads(n: Node, excl: Excludes, e: Emitted)
    requires Ready(n)
    decreases Top(n.baseDir)
  {
    || File(e) in OwnEntries(n, excl)
    || exists i :: NodeUploadsVia(n, excl, e, i)
  }

  ghost predicate NodeUploadsVia(n: Node, excl: Excludes, e: Emitted, i: int)
    requires Ready(n)
    decreases Top(n.baseDir), 0
  {
    && n.baseDir.Some? && 0 <= i < |n.baseDir.value.entries| && n.baseDir.value.entries[i].Directory?
    && var sub := n.baseDir.value.entries[i];
       var params := SubParams(ViewOf(n, Seen(n.collection), excl), sub);
       SubDir(KopiaDir(sub.name, params, [])) in OwnEntries(n, excl) && NodeUploads(params, excl, e)
  }

  ghost predicate AllReady(d: KopiaDir) {
    Ready(d.params) && forall i :: 0 <= i < |d.staticEnts| ==> AllReady(d.staticEnts[i])
  }

  /** Walking the listing of a directory, and the listings of its children, reaches file `e`. */
  ghost predicate Uploads(d: KopiaDir, excl: Excludes, e: Emitted)
    requires AllReady(d)
  {
    NodeUploads(d.params, excl, e) || exists i :: 0 <= i < |d.staticEnts| && Uploads(d.staticEnts[i], excl, e)
  }

  // ---------------------------------------------------------------------------
  // A listing holds what the node emits
  // ---------------------------------------------------------------------------

  lemma {:induction false} StreamEntriesHold(cur: Elements, items: seq<Item>, x: Entry)
    ensures x in StreamEntries(cur, items) <==>
      x.File? && x.file.Streamed? && x.file.dir == cur && x.file.item in items && !x.file.item.deleted
  {
    if items != [] {
      StreamEntriesHold(cur, items[1..], x);
      assert items == [items[0]] + items[1..];
    }
  }

  lemma {:induction false} BaseEntriesHold(v: BaseView, entries: seq<BaseEntry>, x: Entry)
    ensures x in BaseEntries(v, entries) <==> exists b :: b in entries && x in BaseEntryOf(v, b)
  {
    if entries != [] {
      BaseEntriesHold(v, entries[1..], x);
      assert entries == [entries[0]] + entries[1..];
    }
  }

  lemma OwnFiles(n: Node, excl: Excludes, e: Emitted)
    requires Ready(n)
    ensures File(e) in OwnEntries(n, excl) <==>
      || StreamEmits(n, e)
      || (n.baseDir.Some? &&
           DirEmits(n.currentPath.value, n.prevPath.value, n.baseDir.value, Seen(n.collection), excl, e))
  {
    if n.collection.Some? {
      StreamEntriesHold(n.currentPath.value, n.collection.value.items, File(e));
    }
    if n.baseDir.Some? {
      var v := ViewOf(n, Seen(n.collection), excl);
      BaseEntriesHold(v, n.baseDir.value.entries, File(e));
      if e.FromBase? && Survives(e.name, v.seen, v.cur, excl) {
        assert BaseEntryOf(v, BaseFile(e.name, e.modTime)) == [File(FromBase(v.cur, e.name, v.prev, e.modTime))];
      }
    }
  }

  lemma OwnSubdirs(n: Node, excl: Excludes, i: nat)
    requires Ready(n) && n.baseDir.Some?
    requires i < |n.baseDir.value.entries| && n.baseDir.value.entries[i].Directory?
    ensures var sub := n.baseDir.value.entries[i];
      SubDir(KopiaDir(sub.name, SubParams(ViewOf(n, Seen(n.collection), excl), sub), [])) in OwnEntries(n, excl)
      <==> n.streamBaseEnts
  {
    var sub, v := n.baseDir.value.entries[i], ViewOf(n, Seen(n.collection), excl);
    var x := SubDir(KopiaDir(sub.name, SubParams(v, sub), []));
    if n.collection.Some? {
      StreamEntriesHold(n.currentPath.value, n.collection.value.items, x);
    }
    BaseEntriesHold(v, n.baseDir.value.entries, x);
    assert n.streamBaseEnts ==> x in BaseEntryOf(v, sub);
  }

  /** Listings realise `NodeEmits`: seen, excluded and deleted items are left out, streamed subtrees are walked. */
  lemma {:induction false} NodeUploadsWhatItEmits(n: Node, excl: Excludes, e: Emitted)
    requires Ready(n)
    ensures NodeUploads(n, excl, e) <==> NodeEmits(n, excl, e)
    decreases Top(n.baseDir)
  {
    OwnFiles(n, excl, e);
    if n.baseDir.Some? {
      var cur, prev, dir := n.currentPath.value, n.prevPath.value, n.baseDir.value;
      forall i | 0 <= i < |dir.entries| && dir.entries[i].Directory?
        ensures NodeUploadsVia(n, excl, e, i) <==> n.streamBaseEnts && SubdirEmits(cur, prev, dir, i, excl, e)
      {
        OwnSubdirs(n, excl, i);
        NodeUploadsWhatItEmits(SubParams(ViewOf(n, Seen(n.collection), excl), dir.entries[i]), excl, e);
      }
      assert (exists i :: NodeUploadsVia(n, excl, e, i)) <==> n.streamBaseEnts && SubdirsEmit(cur, prev, dir, excl, e);
    }
  }
}
