/**
 `traverseBaseDir` and `subtreeChanged` as functions on trees, with a switch that
 turns the pruning of unchanged subtrees off.  The source always prunes.
 */
module BaseTraversal {
  import opened Wrappers
  import opened PathEscaping
  import opened MergeModel

  const MAX_INFLATE_TRAVERSAL_DEPTH := 500

  /**
   How to traverse: whether to prune, and how a printed path is read back.  The source
   prunes, and reads back with the parser of typed paths; see HierarchyMerge.ReadBack.
   */
  datatype Mode = Mode(prune: bool, parse: Elements -> Option<Elements>)

  ghost predicate FaithfulParse(m: Mode) {
    forall p :: AllNonEmpty(p) && m.parse(p).Some? ==> m.parse(p).value == p
  }

  /** `Builder.Append` with one element: empty elements are dropped. */
  function Extend(p: Elements, name: string): Elements {
    if name == "" then p else p + [name]
  }

  /** The new path of a base directory, or nothing if it was deleted. */
  function Resolved(u: Updates, oldPath: Elements, expected: Option<Elements>, name: string): Option<Elements> {
    if Print(oldPath) in u then u[Print(oldPath)].p
    else
      match expected
      case None => None
      case Some(e) => Some(Extend(e, name))
  }

  ghost predicate SubtreeChanged(t: Tree, u: Updates, oldPath: Elements, cur: Option<Elements>) {
    || (cur.Some? && Lookup(t, cur.value).Some? && (t[cur.value].collection.Some? || HasChild(t, cur.value)))
    || exists k :: k in u && StrictStringPrefix(Print(oldPath), k)
  }

  predicate HasFiles(entries: seq<BaseEntry>) {
    exists e :: e in entries && e.BaseFile?
  }

  /** Makes `dir` the base directory of the node at its new path. */
  function AddBase(m: Mode, t: Tree, oldPath: Elements, cur: Elements, dir: BaseDir,
                   stream: bool): Result<Tree, MergeError> {
    if cur == [] then Err(NoTreeNode)
    else
      var t1 := WithNode(t, cur);
      var n := t1[cur];
      if n.collection.Some? && n.collection.value.SkipsMerge() then Ok(t1)
      else
        match (m.parse(cur), m.parse(oldPath))
        case (Some(curP), Some(oldP)) =>
          Ok(t1[cur := n.(baseDir := Some(dir), currentPath := Some(curP),
                          prevPath := Some(oldP), streamBaseEnts := stream)])
        case _ => Err(BadPath)
  }

  /** A base directory, the path it had, and the path it resolves to. */
  datatype Place = Place(oldPath: Elements, cur: Option<Elements>, dir: BaseDir)

  function PlaceOf(u: Updates, oldParent: Elements, expected: Option<Elements>, dir: BaseDir): Place {
    var oldPath := Extend(oldParent, dir.name);
    Place(oldPath, Resolved(u, oldPath, expected, dir.name), dir)
  }

  ghost function Traverse(m: Mode, depth: nat, u: Updates, oldParent: Elements, expected: Option<Elements>,
                          dir: BaseDir, t: Tree): Result<Tree, MergeError>
    decreases dir, 1
  {
    if depth >= MAX_INFLATE_TRAVERSAL_DEPTH then Err(TooTall)
    else Visit(m, depth, u, PlaceOf(u, oldParent, expected, dir), t)
  }

  ghost function Visit(m: Mode, depth: nat, u: Updates, own: Place, t: Tree): Result<Tree, MergeError>
    decreases own.dir, 0
  {
    if !m.prune || SubtreeChanged(t, u, own.oldPath, own.cur) then
      var t1 :- TraverseEntries(m, depth + 1, u, own.oldPath, own.cur, own.dir.entries, |own.dir.entries|, t);
      Finish(m, t1, own, true)
    else Finish(m, t, own, false)
  }

  /** What happens to a directory after its subdirectories were visited, or pruned. */
  function Finish(m: Mode, t: Tree, own: Place, changed: bool): Result<Tree, MergeError> {
    if own.cur.Some? && (HasFiles(own.dir.entries) || !changed)
    then AddBase(m, t, own.oldPath, own.cur.value, own.dir, !changed)
    else Ok(t)
  }

  /** The first `n` entries, in order. */
  ghost function TraverseEntries(m: Mode, depth: nat, u: Updates, oldPath: Elements, cur: Option<Elements>,
                                 entries: seq<BaseEntry>, n: nat, t: Tree): Result<Tree, MergeError>
    requires n <= |entries|
    decreases entries, n
  {
    if n == 0 then Ok(t)
    else
      var t1 :- TraverseEntries(m, depth, u, oldPath, cur, entries, n - 1, t);
      if entries[n - 1].BaseFile? then Ok(t1)
      else Traverse(m, depth, u, oldPath, cur, entries[n - 1], t1)
  }

  // ---------------------------------------------------------------------------
  // Where every base directory goes
  // ---------------------------------------------------------------------------

  ghost function Places(u: Updates, oldParent: Elements, expected: Option<Elements>, dir: BaseDir): set<Place>
    decreases dir, 1
  {
    PlacesFrom(u, PlaceOf(u, oldParent, expected, dir))
  }

  ghost function PlacesFrom(u: Updates, own: Place): set<Place>
    decreases own.dir, 0
  {
    {own} + PlacesIn(u, own.oldPath, own.cur, own.dir.entries, |own.dir.entries|)
  }

  ghost function PlacesIn(u: Updates, oldPath: Elements, cur: Option<Elements>, entries: seq<BaseEntry>,
                          n: nat): set<Place>
    requires n <= |entries|
    decreases entries, n
  {
    if n == 0 then {}
    else
      PlacesIn(u, oldPath, cur, entries, n - 1)
      + if entries[n - 1].BaseFile? then {} else Places(u, oldPath, cur, entries[n - 1])
  }

  /** The collection at `p` keeps base directories out. */
  predicate Skips(t: Tree, p: Elements) {
    CollectionAt(t, p).Some? && CollectionAt(t, p).value.SkipsMerge()
  }

  /**
   The directory may become the base directory of its target: no collection keeps it out,
   and it has files, or lies where no collection shows that it changed.
   */
  predicate Attaches(t: Tree, pl: Place) {
    && pl.cur.Some? && !Skips(t, pl.cur.value)
    && (HasFiles(pl.dir.entries) || CollectionAt(t, pl.cur.value).None?)
  }

  /** Two directories that may be attached never resolve to the same path. */
  ghost predicate Injective(t: Tree, places: set<Place>) {
    forall a, b {:trigger SameTarget(a, b)} ::
      a in places && b in places && SameTarget(a, b) && Attaches(t, a) && Attaches(t, b) ==> a == b
  }

  predicate SameTarget(a: Place, b: Place) {
    a.cur.Some? && a.cur == b.cur
  }

  ghost predicate Targets(t: Tree, places: set<Place>, p: Elements) {
    exists pl :: pl in places && pl.cur == Some(p) && Attaches(t, pl)
  }

  /** What a file system guarantees: directory names are not empty, and names in a directory differ. */
  ghost predicate WellNamed(dir: BaseDir)
    decreases dir, 0
  {
    dir.name != "" && WellNamedEntries(dir.entries)
  }

  ghost predicate WellNamedEntries(entries: seq<BaseEntry>)
    decreases entries
  {
    && (forall i :: 0 <= i < |entries| && entries[i].Directory? ==> WellNamed(entries[i]))
    && (forall i, j :: 0 <= i < j < |entries| ==> DifferentNames(entries[i], entries[j]))
  }

  predicate DifferentNames(a: BaseEntry, b: BaseEntry) {
    a.name != b.name
  }

  // ---------------------------------------------------------------------------
  // What a tree emits
  // ---------------------------------------------------------------------------

  /** A file of the new snapshot; `dir` is its directory, `prevDir` where its details are. */
  datatype Emitted =
    | Streamed(dir: Elements, item: Item)
    | FromBase(dir: Elements, name: string, prevDir: Elements, modTime: int)

  function Ids(items: seq<Item>): set<string> {
    set i | i in items :: i.id
  }

  /** Names of all streamed items, deleted ones included. */
  function Seen(c: Option<Collection>): set<string> {
    match c
    case None => {}
    case Some(c) => Ids(c.items)
  }

  /** Exclude sets are found by longest prefix of the printed path; any lookup will do here. */
  type Excludes = string -> set<string>

  predicate Survives(name: string, seen: set<string>, cur: Elements, excl: Excludes) {
    name !in seen && name !in excl(Print(cur))
  }

  ghost predicate StreamEmits(n: Node, e: Emitted) {
    && n.collection.Some? && n.currentPath.Some?
    && e.Streamed? && e.dir == n.currentPath.value
    && e.item in n.collection.value.items && !e.item.deleted
  }

  /** Files of the base directory itself. */
  ghost predicate DirEmits(cur: Elements, prev: Elements, dir: BaseDir, seen: set<string>, excl: Excludes, e: Emitted) {
    && e.FromBase? && e.dir == cur && e.prevDir == prev
    && BaseFile(e.name, e.modTime) in dir.entries
    && Survives(e.name, seen, cur, excl)
  }

  /** Files of the base directory, and of its subdirectories when they are streamed. */
  ghost predicate BaseEmits(cur: Elements, prev: Elements, dir: BaseDir, stream: bool, seen: set<string>,
                            excl: Excludes, e: Emitted)
    decreases dir, 1
  {
    || DirEmits(cur, prev, dir, seen, excl, e)
    || (stream && SubdirsEmit(cur, prev, dir, excl, e))
  }

  ghost predicate SubdirsEmit(cur: Elements, prev: Elements, dir: BaseDir, excl: Excludes, e: Emitted)
    decreases dir, 0
  {
    exists i :: 0 <= i < |dir.entries| && dir.entries[i].Directory? && SubdirEmits(cur, prev, dir, i, excl, e)
  }

  ghost predicate SubdirEmits(cur: Elements, prev: Elements, dir: BaseDir, i: nat, excl: Excludes, e: Emitted)
    requires i < |dir.entries| && dir.entries[i].Directory?
    decreases dir.entries, 2
  {
    var sub := dir.entries[i];
    BaseEmits(Extend(cur, sub.name), Extend(prev, sub.name), sub, true, {}, excl, e)
  }

  ghost predicate NodeEmits(n: Node, excl: Excludes, e: Emitted) {
    || StreamEmits(n, e)
    || (n.baseDir.Some? && n.currentPath.Some? && n.prevPath.Some? &&
          BaseEmits(n.currentPath.value, n.prevPath.value, n.baseDir.value, n.streamBaseEnts, Seen(n.collection),
              excl, e))
  }

  ghost predicate Emits(t: Tree, excl: Excludes, e: Emitted) {
    exists p :: p in t && NodeEmits(t[p], excl, e)
  }

  // ---------------------------------------------------------------------------
  // What should be emitted for the base directories
  // ---------------------------------------------------------------------------

  ghost predicate PlaceEmits(t: Tree, excl: Excludes, pl: Place, e: Emitted) {
    && pl.cur.Some?
    && !Skips(t, pl.cur.value)
    && DirEmits(pl.cur.value, pl.oldPath, pl.dir, Seen(CollectionAt(t, pl.cur.value)), excl, e)
  }

  ghost predicate PlacesEmit(t: Tree, excl: Excludes, places: set<Place>, e: Emitted) {
    exists pl :: pl in places && PlaceEmits(t, excl, pl, e)
  }

  // ---------------------------------------------------------------------------
  // Frame of the traversal
  // ---------------------------------------------------------------------------

  /** Nodes that hold something know their own path. */
  ghost predicate Located(t: Tree) {
    forall p :: p in t && (t[p].collection.Some? || t[p].baseDir.Some?) ==> t[p].currentPath == Some(p)
  }

  /** Base directories of the tree come from a well-named snapshot. */
  ghost predicate BasesNamed(t: Tree) {
    forall p :: p in t && t[p].baseDir.Some? ==> WellNamed(t[p].baseDir.value)
  }

  ghost predicate TreeOk(t: Tree) {
    PrefixClosed(t) && Located(t) && BasesNamed(t)
  }

  /** `t'` differs from `t` only in base directories that `places` attach, and in empty nodes. */
  ghost predicate Grown(t: Tree, t': Tree, places: set<Place>) {
    && TreeOk(t')
    && (forall p :: p in t ==> p in t')
    && (forall p :: p in t' ==> CollectionAt(t', p) == CollectionAt(t, p))
    && (forall p :: p in t && !Targets(t, places, p) ==> t'[p] == t[p])
    && (forall p :: p in t' && p !in t && !Targets(t, places, p) ==> t'[p] == EMPTY_NODE)
  }

  lemma SameAttaches(t: Tree, t1: Tree, places: set<Place>, pl: Place)
    requires Grown(t, t1, places)
    ensures Attaches(t1, pl) <==> Attaches(t, pl)
  {
    if pl.cur.Some? {
      GrownCollections(t, t1, places, pl.cur.value);
    }
  }

  lemma GrownTrans(t: Tree, t1: Tree, t2: Tree, a: set<Place>, b: set<Place>)
    requires Grown(t, t1, a) && Grown(t1, t2, b)
    ensures Grown(t, t2, a + b)
  {
    forall p | Targets(t, a, p) || Targets(t1, b, p)
      ensures Targets(t, a + b, p)
    {
      if Targets(t, a, p) {
        var pl :| pl in a && pl.cur == Some(p) && Attaches(t, pl);
        assert pl in a + b;
      } else {
        var pl :| pl in b && pl.cur == Some(p) && Attaches(t1, pl);
        SameAttaches(t, t1, a, pl);
        assert pl in a + b;
      }
    }
    forall p | p in t2
      ensures CollectionAt(t2, p) == CollectionAt(t, p)
    {
      assert CollectionAt(t2, p) == CollectionAt(t1, p);
    }
  }

  lemma GrownMore(t: Tree, t': Tree, a: set<Place>, b: set<Place>)
    requires Grown(t, t', a) && a <= b
    ensures Grown(t, t', b)
  {
    forall p | Targets(t, a, p)
      ensures Targets(t, b, p)
    {
    }
  }

  lemma GrownCollections(t: Tree, t': Tree, places: set<Place>, p: Elements)
    requires Grown(t, t', places)
    ensures CollectionAt(t', p) == CollectionAt(t, p)
  {
  }

  lemma SameExpectation(t: Tree, t': Tree, grown: set<Place>, excl: Excludes, places: set<Place>, e: Emitted)
    requires Grown(t, t', grown)
    ensures PlacesEmit(t', excl, places, e) <==> PlacesEmit(t, excl, places, e)
  {
    forall pl | pl in places
      ensures PlaceEmits(t', excl, pl, e) <==> PlaceEmits(t, excl, pl, e)
    {
      if pl.cur.Some? {
        GrownCollections(t, t', grown, pl.cur.value);
      }
    }
  }
}
