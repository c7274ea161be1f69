/**
 `inflateBaseTree` and `inflateDirTree` as functions, and the theorem about the files of the merged snapshot.
 */
module HierarchyMerge {
  import opened Wrappers
  import opened PathEscaping
  import opened DataPaths
  import opened MergeModel
  import opened BaseTraversal
  import opened TraversalEmission
  import opened CollectionInflation

  /** A base snapshot and the subtree paths of the reasons it was chosen for. */
  datatype Base = Base(incomplete: bool, root: BaseDir, reasons: seq<Elements>)

  /** One pass of the loop over reasons: a subtree of one snapshot. */
  datatype Subtree = Subtree(root: BaseDir, path: Elements)

  datatype Found = Missing | NotADirectory | Found(dir: BaseDir)

  function Child(entries: seq<BaseEntry>, name: string): Option<BaseEntry> {
    if entries == [] then None
    else if entries[0].name == name then Some(entries[0])
    else Child(entries[1..], name)
  }

  function Nested(entry: BaseEntry, names: seq<string>): Found
    decreases |names|
  {
    if entry.BaseFile? then NotADirectory
    else if names == [] then Found(entry)
    else
      match Child(entry.entries, names[0])
      case None => Missing
      case Some(sub) => Nested(sub, names[1..])
  }

  /** `Builder.Dir`. */
  function Parent(p: Elements): Elements {
    if |p| <= 1 then [] else p[..|p| - 1]
  }

  /** `Builder.PopFront`. */
  function PopFront(p: Elements): Elements {
    if |p| <= 1 then [] else p[1..]
  }

  predicate RootKept(u: Updates, path: Elements) {
    Print(path) in u ==> u[Print(path)].p.Some?
  }

  function NewSubtreePath(u: Updates, path: Elements): Elements {
    if Print(path) in u && u[Print(path)].p.Some? then u[Print(path)].p.value else path
  }

  /**
   The source dereferences the new path of a subtree it found without a nil check.  The
   panic is modelled as an outcome of its own.
   */
  ghost function InflateSubtree(m: Mode, u: Updates, s: Subtree, t: Tree): Result<Tree, MergeError> {
    match Nested(s.root, PopFront(s.path))
    case Missing => Ok(t)
    case NotADirectory => Err(SubtreeNotDirectory)
    case Found(dir) =>
      if !RootKept(u, s.path) then Err(NilDereference)
      else Traverse(m, 0, u, Parent(s.path), Some(Parent(NewSubtreePath(u, s.path))), dir, t)
  }

  ghost function InflateSubtrees(m: Mode, u: Updates, ss: seq<Subtree>, t: Tree): Result<Tree, MergeError> {
    if ss == [] then Ok(t)
    else
      var t1 :- InflateSubtrees(m, u, ss[..|ss| - 1], t);
      InflateSubtree(m, u, ss[|ss| - 1], t1)
  }

  function SubtreesOf(b: Base): seq<Subtree> {
    if b.incomplete then []
    else seq(|b.reasons|, i requires 0 <= i < |b.reasons| => Subtree(b.root, b.reasons[i]))
  }

  function AllSubtrees(bases: seq<Base>): seq<Subtree> {
    if bases == [] then []
    else AllSubtrees(bases[..|bases| - 1]) + SubtreesOf(bases[|bases| - 1])
  }

  /** `PrefixOrPathFromDataLayerPath` on the printed form of a path. */
  function ReadBack(p: Elements): Option<Elements> {
    match FromDataLayer(Print(p), false, 4)
    case Ok(path) => Some(path.elements)
    case Err(_) => None
  }

  /** Exactly the reasons of complete bases are merged, each into the snapshot of its base. */
  lemma {:induction false} SubtreesAre(bases: seq<Base>, s: Subtree)
    ensures s in AllSubtrees(bases) <==>
      exists b :: b in bases && !b.incomplete && s.root == b.root && s.path in b.reasons
  {
    if bases != [] {
      var init, last := bases[..|bases| - 1], bases[|bases| - 1];
      SubtreesAre(init, s);
      SubtreesOfOne(last, s);
      assert bases == init + [last];
    }
  }

  lemma SubtreesOfOne(b: Base, s: Subtree)
    ensures s in SubtreesOf(b) <==> !b.incomplete && s.root == b.root && s.path in b.reasons
  {
    if !b.incomplete && s.root == b.root && s.path in b.reasons {
      var i :| 0 <= i < |b.reasons| && b.reasons[i] == s.path;
      assert SubtreesOf(b)[i] == s;
    }
  }

  lemma ReadBackFaithful(prune: bool)
    ensures FaithfulParse(Mode(prune, ReadBack))
  {
    forall p | AllNonEmpty(p) && ReadBack(p).Some?
      ensures ReadBack(p).value == p
    {
      ReparseSucceedsIff(p);
    }
  }

  /** `inflateDirTree` up to the check for a single root. */
  ghost function InflateTrees(prune: bool, bases: seq<Base>, cs: seq<Collection>): Result<Tree, MergeError>
    requires forall c :: c in cs ==> c.Typed()
  {
    var start :- Inflate(cs);
    InflateSubtrees(Mode(prune, ReadBack), start.1, AllSubtrees(bases), start.0)
  }

  // ---------------------------------------------------------------------------
  // Where base directories go, in terms of collections
  // ---------------------------------------------------------------------------

  ghost predicate Mentions(c: Collection, p: Elements) {
    !c.state.NewState? && c.previousPath == Some(p)
  }

  ghost predicate Mentioned(cs: seq<Collection>, p: Elements) {
    exists c :: c in cs && Mentions(c, p)
  }

  /**
   A directory follows the collection that mentions it, or else its nearest ancestor
   inside the subtree that a collection mentions, or else stays where it was.
   */
  ghost function Resolve(cs: seq<Collection>, root: Elements, p: Elements): Option<Elements>
    requires root <= p
    decreases |p|
  {
    if Mentioned(cs, p) then
      var c :| c in cs && Mentions(c, p);
      if c.state.DeletedState? then None else c.fullPath
    else if p == root then Some(p)
    else
      match Resolve(cs, root, p[..|p| - 1])
      case None => None
      case Some(q) => Some(q + [p[|p| - 1]])
  }

  /** `d` is the directory found from `top` by following `names`. */
  ghost predicate DirAt(top: BaseDir, names: Elements, d: BaseDir)
    decreases |names|, 1
  {
    if names == [] then d == top
    else exists i :: DirAtVia(top, names, d, i)
  }

  ghost predicate DirAtVia(top: BaseDir, names: Elements, d: BaseDir, i: int)
    requires names != []
    decreases |names|, 0
  {
    && 0 <= i < |top.entries| && top.entries[i].Directory?
    && top.entries[i].name == names[0] && DirAt(top.entries[i], names[1..], d)
  }

  /** The snapshot of `s` has directory `d` at path `p`, inside the subtree; its root is the path's first element. */
  ghost predicate Holds(s: Subtree, p: Elements, d: BaseDir) {
    && s.path != [] && s.path <= p
    && DirAt(s.root, p[1..], d)
  }

  ghost predicate HoldsRoot(s: Subtree) {
    exists d :: Holds(s, s.path, d)
  }

  // ---------------------------------------------------------------------------
  // Nested entries
  // ---------------------------------------------------------------------------

  lemma {:induction false} ChildIs(entries: seq<BaseEntry>, name: string, x: BaseEntry)
    requires forall i, j :: 0 <= i < j < |entries| ==> DifferentNames(entries[i], entries[j])
    ensures Child(entries, name) == Some(x) <==> x in entries && x.name == name
    ensures Child(entries, name) == None <==> forall y :: y in entries ==> y.name != name
    decreases |entries|
  {
    if entries != [] {
      ChildIs(entries[1..], name, x);
      assert entries == [entries[0]] + entries[1..];
      assert forall y :: y in entries[1..] ==> DifferentNames(entries[0], y);
    }
  }

  /** Looking up the names one after the other finds exactly the directory they lead to. */
  lemma {:induction false} NestedIs(root: BaseDir, names: seq<string>, d: BaseDir)
    requires WellNamed(root)
    ensures Nested(root, names) == Found(d) <==> DirAt(root, names, d)
    decreases |names|
  {
    if names != [] {
      assert WellNamedEntries(root.entries);
      if i :| DirAtVia(root, names, d, i) {
        ChildIs(root.entries, names[0], root.entries[i]);
        NestedIs(root.entries[i], names[1..], d);
      } else if Nested(root, names) == Found(d) {
        var sub := Child(root.entries, names[0]).value;
        ChildIs(root.entries, names[0], sub);
        var i :| 0 <= i < |root.entries| && root.entries[i] == sub;
        assert Nested(root, names) == Nested(sub, names[1..]);
        assert sub.Directory?;
        NestedIs(root.entries[i], names[1..], d);
        assert DirAtVia(root, names, d, i);
      }
    }
  }

  /** The first `k` names lead to a directory without an entry of the next name. */
  ghost predicate NoEntryFor(root: BaseDir, names: seq<string>, k: int, d: BaseDir) {
    0 <= k < |names| && DirAt(root, names[..k], d) && forall x :: x in d.entries ==> x.name != names[k]
  }

  /** The first `k` names lead to a directory with a file of the next name. */
  ghost predicate FileFor(root: BaseDir, names: seq<string>, k: int, d: BaseDir) {
    0 <= k < |names| && DirAt(root, names[..k], d) && exists x :: x in d.entries && x.BaseFile? && x.name == names[k]
  }

  ghost predicate FileOnTheWay(root: BaseDir, names: seq<string>) {
    exists k, d :: FileFor(root, names, k, d)
  }

  ghost predicate NothingThere(root: BaseDir, names: seq<string>) {
    exists k, d :: NoEntryFor(root, names, k, d)
  }

  /** Looking up continues from any directory on the way. */
  lemma {:induction false} NestedFrom(root: BaseDir, names: seq<string>, k: nat, d: BaseDir)
    requires k <= |names| && Nested(root, names[..k]) == Found(d)
    ensures Nested(root, names) == Nested(d, names[k..])
    decreases |names|
  {
    if k > 0 {
      var sub := Child(root.entries, names[0]).value;
      assert names[..k][1..] == names[1..][..k - 1];
      assert names[k..] == names[1..][k - 1..];
      NestedFrom(sub, names[1..], k - 1, d);
    } else {
      assert names[k..] == names;
    }
  }

  lemma {:induction false} DirAtNonEmpty(top: BaseDir, names: Elements, d: BaseDir)
    requires WellNamed(top) && DirAt(top, names, d)
    ensures AllNonEmpty(names) && WellNamed(d)
    decreases |names|
  {
    if names != [] {
      var i :| DirAtVia(top, names, d, i);
      assert WellNamedEntries(top.entries);
      DirAtNonEmpty(top.entries[i], names[1..], d);
      assert forall k :: 1 <= k < |names| ==> names[k] == names[1..][k - 1];
    }
  }

  lemma StopsAt(root: BaseDir, names: seq<string>, k: int, d: BaseDir)
    requires WellNamed(root)
    ensures NoEntryFor(root, names, k, d) ==> Nested(root, names) == Missing
    ensures FileFor(root, names, k, d) ==> Nested(root, names) == NotADirectory
  {
    if 0 <= k < |names| && DirAt(root, names[..k], d) {
      NestedIs(root, names[..k], d);
      NestedFrom(root, names, k, d);
      DirAtNonEmpty(root, names[..k], d);
      assert WellNamedEntries(d.entries);
      if x :| x in d.entries && x.name == names[k] {
        ChildIs(d.entries, names[k], x);
      } else {
        ChildIs(d.entries, names[k], d);
      }
    }
  }

  /** How far the names lead. */
  lemma {:induction false} LastOnTheWay(root: BaseDir, names: seq<string>) returns (k: nat, d: BaseDir)
    requires !Nested(root, names).Found?
    ensures k < |names| && Nested(root, names[..k]) == Found(d)
    ensures Child(d.entries, names[k]).Some? ==> Child(d.entries, names[k]).value.BaseFile?
    decreases |names|
  {
    var child := Child(root.entries, names[0]);
    if child.Some? && child.value.Directory? {
      k, d := LastOnTheWay(child.value, names[1..]);
      k := k + 1;
      assert names[..k][1..] == names[1..][..k - 1];
    } else {
      k, d := 0, root;
    }
  }

  /** A lookup that fails says why: on the way there is no entry of the name, or it is a file. */
  lemma NestedFails(root: BaseDir, names: seq<string>)
    requires WellNamed(root)
    ensures Nested(root, names).Missing? <==> NothingThere(root, names)
    ensures Nested(root, names).NotADirectory? <==> FileOnTheWay(root, names)
  {
    forall k, d
      ensures NoEntryFor(root, names, k, d) ==> Nested(root, names).Missing?
      ensures FileFor(root, names, k, d) ==> Nested(root, names).NotADirectory?
    {
      StopsAt(root, names, k, d);
    }
    if !Nested(root, names).Found? {
      var k, d := LastOnTheWay(root, names);
      NestedIs(root, names[..k], d);
      DirAtNonEmpty(root, names[..k], d);
      assert WellNamedEntries(d.entries);
      match Child(d.entries, names[k]) {
        case None =>
          ChildIs(d.entries, names[k], d);
          assert NoEntryFor(root, names, k, d);
        case Some(x) =>
          ChildIs(d.entries, names[k], x);
          assert FileFor(root, names, k, d);
      }
    }
  }

  lemma {:induction false} DirAtAppend(root: BaseDir, a: Elements, b: Elements, m: BaseDir, d: BaseDir)
    requires DirAt(root, a, m) && DirAt(m, b, d)
    ensures DirAt(root, a + b, d)
    decreases |a|
  {
    if a == [] {
      assert a + b == b;
    } else {
      var i :| DirAtVia(root, a, m, i);
      DirAtAppend(root.entries[i], a[1..], b, m, d);
      assert (a + b)[1..] == a[1..] + b;
      assert DirAtVia(root, a + b, d, i);
    }
  }

  lemma {:induction false} DirAtSplit(root: BaseDir, a: Elements, b: Elements, d: BaseDir) returns (m: BaseDir)
    requires DirAt(root, a + b, d)
    ensures DirAt(root, a, m) && DirAt(m, b, d)
    decreases |a|
  {
    m := root;
    if a == [] {
      assert a + b == b;
    } else {
      var i :| DirAtVia(root, a + b, d, i);
      assert (a + b)[1..] == a[1..] + b;
      m := DirAtSplit(root.entries[i], a[1..], b, d);
      assert DirAtVia(root, a, m, i);
    }
  }

  /** A subtree holds what its root directory holds below itself. */
  lemma HoldsBelowRoot(s: Subtree, p: Elements, d: BaseDir)
    requires s.path != [] && s.path <= p && WellNamed(s.root)
    ensures Holds(s, p, d) <==>
      && Nested(s.root, PopFront(s.path)).Found?
      && DirAt(Nested(s.root, PopFront(s.path)).dir, p[|s.path|..], d)
  {
    var a, b := s.path[1..], p[|s.path|..];
    assert PopFront(s.path) == a && p[1..] == a + b;
    if Holds(s, p, d) {
      var m := DirAtSplit(s.root, a, b, d);
      NestedIs(s.root, a, m);
    } else if Nested(s.root, a).Found? {
      var m := Nested(s.root, a).dir;
      NestedIs(s.root, a, m);
      if DirAt(m, b, d) {
        DirAtAppend(s.root, a, b, m, d);
      }
    }
  }

  lemma HoldsRootMeans(s: Subtree)
    requires s.path != [] && WellNamed(s.root)
    ensures HoldsRoot(s) <==> Nested(s.root, PopFront(s.path)).Found?
    ensures HoldsRoot(s) ==> Holds(s, s.path, Nested(s.root, PopFront(s.path)).dir)
  {
    if Nested(s.root, PopFront(s.path)).Found? {
      HoldsBelowRoot(s, s.path, Nested(s.root, PopFront(s.path)).dir);
    }
    if d :| Holds(s, s.path, d) {
      HoldsBelowRoot(s, s.path, d);
    }
  }

  // ---------------------------------------------------------------------------
  // What the new snapshot should hold
  // ---------------------------------------------------------------------------

  ghost predicate StreamedLive(cs: seq<Collection>, e: Emitted) {
    e.Streamed? && !e.item.deleted && exists c :: LiveAt(cs, e.dir, c) && e.item in c.items
  }

  ghost predicate LiveAt(cs: seq<Collection>, p: Elements, c: Collection) {
    c in cs && !c.state.DeletedState? && c.fullPath == Some(p)
  }

  /** No collection at the target forbids merging or has already reported the name. */
  ghost predicate TargetAllows(cs: seq<Collection>, p: Elements, name: string) {
    forall c :: LiveAt(cs, p, c) ==>
      !c.doNotMerge && !c.state.NewState? && forall i :: i in c.items ==> i.id != name
  }

  ghost predicate Merges(cs: seq<Collection>, s: Subtree, d: BaseDir, excl: Excludes, e: Emitted) {
    && e.FromBase? && Holds(s, e.prevDir, d)
    && BaseFile(e.name, e.modTime) in d.entries
    && Resolve(cs, s.path, e.prevDir) == Some(e.dir)
    && TargetAllows(cs, e.dir, e.name)
    && e.name !in excl(Print(e.dir))
  }

  ghost predicate MergedFromBase(cs: seq<Collection>, ss: seq<Subtree>, excl: Excludes, e: Emitted) {
    exists s, d :: s in ss && Merges(cs, s, d, excl, e)
  }

  /** The same for the complete bases and their reasons. */
  ghost predicate MergedFromBases(cs: seq<Collection>, bases: seq<Base>, excl: Excludes, e: Emitted) {
    exists b, path, d ::
      b in bases && !b.incomplete && path in b.reasons && Merges(cs, Subtree(b.root, path), d, excl, e)
  }

  lemma MergedFromSubtrees(cs: seq<Collection>, bases: seq<Base>, excl: Excludes, e: Emitted)
    ensures MergedFromBase(cs, AllSubtrees(bases), excl, e) <==> MergedFromBases(cs, bases, excl, e)
  {
    if s, d :| s in AllSubtrees(bases) && Merges(cs, s, d, excl, e) {
      SubtreesAre(bases, s);
      var b :| b in bases && !b.incomplete && s.root == b.root && s.path in b.reasons;
      assert Subtree(b.root, s.path) == s;
    }
    if b, path, d :| b in bases && !b.incomplete && path in b.reasons && Merges(cs, Subtree(b.root, path), d, excl, e) {
      SubtreesAre(bases, Subtree(b.root, path));
    }
  }

  /** The collection that goes to `p` keeps base directories out. */
  ghost predicate TargetSkips(cs: seq<Collection>, p: Elements) {
    exists c :: LiveAt(cs, p, c) && (c.doNotMerge || c.state.NewState?)
  }

  ghost predicate Occupied(cs: seq<Collection>, p: Elements) {
    exists c :: LiveAt(cs, p, c)
  }

  /** Base directory `d` may end up at `p`: it is let in, and has files or goes where no collection goes. */
  ghost predicate MayGo(cs: seq<Collection>, d: BaseDir, p: Elements) {
    !TargetSkips(cs, p) && (HasFiles(d.entries) || !Occupied(cs, p))
  }

  /**
   Two base directories never resolve to the same live path, unless the collection there
   keeps base directories out, or shows that one without files of its own has changed.
   */
  ghost predicate InjectiveResolution(cs: seq<Collection>, ss: seq<Subtree>) {
    forall s1, s2, p1, p2, d1, d2 ::
      && s1 in ss && s2 in ss && Holds(s1, p1, d1) && Holds(s2, p2, d2)
      && Resolve(cs, s1.path, p1).Some? && Resolve(cs, s1.path, p1) == Resolve(cs, s2.path, p2)
      && MayGo(cs, d1, Resolve(cs, s1.path, p1).value) && MayGo(cs, d2, Resolve(cs, s1.path, p1).value)
      ==> p1 == p2
  }

  /** Subtree paths are `<tenant>/<service>/<resource>/<category>`, one base for each. */
  ghost predicate SubtreesTyped(ss: seq<Subtree>) {
    && (forall i :: 0 <= i < |ss| ==> |ss[i].path| == 4 && AllNonEmpty(ss[i].path) && WellNamed(ss[i].root))
    && (forall i, j :: 0 <= i < j < |ss| ==> ss[i].path != ss[j].path)
  }

  /** What `path.Path` guarantees of every path of a collection. */
  ghost predicate CollectionTyped(c: Collection) {
    && c.Typed()
    && (c.fullPath.Some? ==> |c.fullPath.value| >= 4 && AllNonEmpty(c.fullPath.value))
    && (c.previousPath.Some? ==> |c.previousPath.value| >= 4 && AllNonEmpty(c.previousPath.value))
  }

  ghost predicate CollectionsTyped(cs: seq<Collection>) {
    forall c :: c in cs ==> CollectionTyped(c)
  }

  // ---------------------------------------------------------------------------
  // Places of all subtrees
  // ---------------------------------------------------------------------------

  ghost function SubtreePlaces(u: Updates, s: Subtree): set<Place> {
    match Nested(s.root, PopFront(s.path))
    case Found(dir) => Places(u, Parent(s.path), Some(Parent(NewSubtreePath(u, s.path))), dir)
    case _ => {}
  }

  ghost function AllPlaces(u: Updates, ss: seq<Subtree>): set<Place> {
    if ss == [] then {} else AllPlaces(u, ss[..|ss| - 1]) + SubtreePlaces(u, ss[|ss| - 1])
  }

  lemma {:induction false} ChildNamed(entries: seq<BaseEntry>, name: string)
    requires Child(entries, name).Some?
    ensures Child(entries, name).value in entries && Child(entries, name).value.name == name
  {
    if entries[0].name != name {
      ChildNamed(entries[1..], name);
    }
  }

  lemma {:induction false} NestedNamed(entry: BaseEntry, names: seq<string>)
    requires entry.Directory? ==> WellNamed(entry)
    requires Nested(entry, names).Found?
    ensures WellNamed(Nested(entry, names).dir)
    ensures names != [] ==> Nested(entry, names).dir.name == names[|names| - 1]
    decreases |names|
  {
    if names != [] {
      ChildNamed(entry.entries, names[0]);
      var sub := Child(entry.entries, names[0]).value;
      var i :| 0 <= i < |entry.entries| && entry.entries[i] == sub;
      assert WellNamedEntries(entry.entries);
      NestedNamed(sub, names[1..]);
    }
  }

  lemma SubtreeTop(s: Subtree)
    requires |s.path| == 4 && WellNamed(s.root) && Nested(s.root, PopFront(s.path)).Found?
    ensures var top := Nested(s.root, PopFront(s.path)).dir;
      WellNamed(top) && Parent(s.path) + [top.name] == s.path
  {
    NestedNamed(s.root, PopFront(s.path));
    assert PopFront(s.path)[2] == s.path[3];
  }

  lemma SubtreePlacesUnder(u: Updates, s: Subtree)
    requires |s.path| == 4 && WellNamed(s.root)
    ensures forall pl :: pl in SubtreePlaces(u, s) ==> s.path <= pl.oldPath
  {
    if Nested(s.root, PopFront(s.path)).Found? {
      SubtreeTop(s);
      PlacesUnder(u, Parent(s.path), Some(Parent(NewSubtreePath(u, s.path))), Nested(s.root, PopFront(s.path)).dir);
    }
  }

  lemma {:induction false} AllPlacesUnder(u: Updates, ss: seq<Subtree>)
    requires SubtreesTyped(ss)
    ensures forall pl :: pl in AllPlaces(u, ss) ==> exists i :: 0 <= i < |ss| && ss[i].path <= pl.oldPath
    decreases |ss|
  {
    if ss != [] {
      var init := ss[..|ss| - 1];
      AllPlacesUnder(u, init);
      SubtreePlacesUnder(u, ss[|ss| - 1]);
      forall pl | pl in AllPlaces(u, ss)
        ensures exists i :: 0 <= i < |ss| && ss[i].path <= pl.oldPath
      {
        if pl in AllPlaces(u, init) {
          var i :| 0 <= i < |init| && init[i].path <= pl.oldPath;
          assert ss[i] == init[i];
        } else {
          assert ss[|ss| - 1].path <= pl.oldPath;
        }
      }
    }
  }

  lemma NotBothPrefixes(a: Elements, b: Elements, p: Elements)
    requires |a| == |b| && a != b
    ensures !(a <= p && b <= p)
  {
    assert a <= p ==> a == p[..|a|];
    assert b <= p ==> b == p[..|b|];
  }

  lemma SubtreesDisjoint(u: Updates, ss: seq<Subtree>)
    requires SubtreesTyped(ss) && ss != []
    ensures AllPlaces(u, ss[..|ss| - 1]) !! SubtreePlaces(u, ss[|ss| - 1])
  {
    var init, last := ss[..|ss| - 1], ss[|ss| - 1];
    AllPlacesUnder(u, init);
    SubtreePlacesUnder(u, last);
    forall pl | pl in AllPlaces(u, init)
      ensures pl !in SubtreePlaces(u, last)
    {
      var i :| 0 <= i < |init| && init[i].path <= pl.oldPath;
      assert ss[i] == init[i] && ss[i].path != last.path;
      NotBothPrefixes(ss[i].path, last.path, pl.oldPath);
    }
  }

  lemma {:induction false} InflateSubtreesEmits(m: Mode, u: Updates, ss: seq<Subtree>, t: Tree, excl: Excludes,
                                                e: Emitted)
    requires SubtreesTyped(ss) && UpdatesTyped(u) && TreeOk(t)
    requires Injective(t, AllPlaces(u, ss)) && Free(t, AllPlaces(u, ss))
    requires FaithfulParse(m)
    requires InflateSubtrees(m, u, ss, t).Ok?
    ensures Grown(t, InflateSubtrees(m, u, ss, t).value, AllPlaces(u, ss))
    ensures Emits(InflateSubtrees(m, u, ss, t).value, excl, e) <==>
      Emits(t, excl, e) || PlacesEmit(t, excl, AllPlaces(u, ss), e)
    decreases |ss|
  {
    if ss != [] {
      var init, s := ss[..|ss| - 1], ss[|ss| - 1];
      var before, here := AllPlaces(u, init), SubtreePlaces(u, s);
      InflateSubtreesEmits(m, u, init, t, excl, e);
      var t1 := InflateSubtrees(m, u, init, t).value;
      SubtreesDisjoint(u, ss);
      FreeAfter(t, t1, before, here);
      InflateSubtreeEmits(m, u, s, t1, excl, e);
      GrownTrans(t, t1, InflateSubtree(m, u, s, t1).value, before, here);
      SameExpectation(t, t1, before, excl, here, e);
      PlacesEmitUnion(t, excl, before, here, e);
    }
  }

  lemma InflateSubtreeEmits(m: Mode, u: Updates, s: Subtree, t: Tree, excl: Excludes, e: Emitted)
    requires |s.path| == 4 && AllNonEmpty(s.path) && WellNamed(s.root)
    requires UpdatesTyped(u) && TreeOk(t)
    requires Injective(t, SubtreePlaces(u, s)) && Free(t, SubtreePlaces(u, s))
    requires FaithfulParse(m)
    requires InflateSubtree(m, u, s, t).Ok?
    ensures Grown(t, InflateSubtree(m, u, s, t).value, SubtreePlaces(u, s))
    ensures Emits(InflateSubtree(m, u, s, t).value, excl, e) <==>
      Emits(t, excl, e) || PlacesEmit(t, excl, SubtreePlaces(u, s), e)
  {
    if Nested(s.root, PopFront(s.path)).Found? {
      SubtreeTop(s);
      var new_ := NewSubtreePath(u, s.path);
      TraverseEmits(m, 0, u, Parent(s.path), Some(Parent(new_)), Nested(s.root, PopFront(s.path)).dir, t, excl, e);
    }
  }

  // ---------------------------------------------------------------------------
  // Places are the directories of the snapshots, with their resolutions
  // ---------------------------------------------------------------------------

  /** `Resolve` over the update map, for a subtree whose root goes to `rootCur`. */
  ghost function ResolveAt(u: Updates, root: Elements, rootCur: Option<Elements>, p: Elements): Option<Elements>
    requires root <= p
    decreases |p|
  {
    if p == root then rootCur
    else if Print(p) in u then u[Print(p)].p
    else
      match ResolveAt(u, root, rootCur, p[..|p| - 1])
      case None => None
      case Some(q) => Some(q + [p[|p| - 1]])
  }

  /** Resolution may start at any directory on the way. */
  lemma {:induction false} ResolveShift(u: Updates, root: Elements, rootCur: Option<Elements>, name: string,
                                        p: Elements)
    requires name != "" && root + [name] <= p
    ensures root <= p
    ensures ResolveAt(u, root, rootCur, p)
         == ResolveAt(u, root + [name], Resolved(u, root + [name], rootCur, name), p)
    decreases |p|
  {
    assert root <= p;
    if p == root + [name] {
      assert p[..|p| - 1] == root;
    } else {
      assert root + [name] <= p[..|p| - 1];
      ResolveShift(u, root, rootCur, name, p[..|p| - 1]);
    }
  }

  lemma {:induction false} PlacesSound(u: Updates, oldParent: Elements, expected: Option<Elements>, dir: BaseDir,
                                       pl: Place)
    requires WellNamed(dir) && pl in Places(u, oldParent, expected, dir)
    ensures var root := oldParent + [dir.name];
      && root <= pl.oldPath
      && DirAt(dir, pl.oldPath[|root|..], pl.dir)
      && pl.cur == ResolveAt(u, root, Resolved(u, root, expected, dir.name), pl.oldPath)
    decreases dir, 0
  {
    var root := oldParent + [dir.name];
    var cur := Resolved(u, root, expected, dir.name);
    if pl == Place(root, cur, dir) {
      assert pl.oldPath[|root|..] == [];
    } else {
      PlacesInSound(u, root, cur, dir.entries, |dir.entries|, pl);
      var i :| 0 <= i < |dir.entries| && UnderEntry(u, root, cur, dir.entries, i, pl);
      var names := pl.oldPath[|root|..];
      assert names[1..] == pl.oldPath[|root| + 1..];
      assert DirAtVia(dir, names, pl.dir, i);
      ResolveShift(u, root, cur, dir.entries[i].name, pl.oldPath);
    }
  }

  ghost predicate UnderEntry(u: Updates, root: Elements, cur: Option<Elements>, entries: seq<BaseEntry>, i: nat,
                             pl: Place)
    requires i < |entries|
  {
    && entries[i].Directory? && entries[i].name != ""
    && root + [entries[i].name] <= pl.oldPath
    && DirAt(entries[i], pl.oldPath[|root| + 1..], pl.dir)
    && pl.cur == ResolveAt(u, root + [entries[i].name],
                           Resolved(u, root + [entries[i].name], cur, entries[i].name), pl.oldPath)
  }

  lemma {:induction false} PlacesInSound(u: Updates, root: Elements, cur: Option<Elements>, entries: seq<BaseEntry>,
                                         n: nat, pl: Place)
    requires n <= |entries| && WellNamedEntries(entries) && pl in PlacesIn(u, root, cur, entries, n)
    ensures exists i :: 0 <= i < n && UnderEntry(u, root, cur, entries, i, pl)
    decreases entries, n
  {
    if pl in PlacesIn(u, root, cur, entries, n - 1) {
      PlacesInSound(u, root, cur, entries, n - 1, pl);
    } else {
      PlacesSound(u, root, cur, entries[n - 1], pl);
      assert UnderEntry(u, root, cur, entries, n - 1, pl);
    }
  }

  lemma {:induction false} PlacesInHas(u: Updates, root: Elements, cur: Option<Elements>, entries: seq<BaseEntry>,
                                       n: nat, i: nat)
    requires i < n <= |entries| && entries[i].Directory?
    ensures Places(u, root, cur, entries[i]) <= PlacesIn(u, root, cur, entries, n)
    decreases n
  {
    if i < n - 1 {
      PlacesInHas(u, root, cur, entries, n - 1, i);
    }
  }

  lemma {:induction false} PlacesComplete(u: Updates, oldParent: Elements, expected: Option<Elements>, dir: BaseDir,
                                          names: Elements, d: BaseDir)
    requires WellNamed(dir) && DirAt(dir, names, d)
    ensures var root := oldParent + [dir.name];
      && root <= root + names
      && Place(root + names, ResolveAt(u, root, Resolved(u, root, expected, dir.name), root + names), d)
           in Places(u, oldParent, expected, dir)
    decreases |names|
  {
    var root := oldParent + [dir.name];
    var cur := Resolved(u, root, expected, dir.name);
    if names == [] {
      assert root + names == root;
    } else {
      var i :| DirAtVia(dir, names, d, i);
      assert WellNamedEntries(dir.entries);
      PlacesComplete(u, root, cur, dir.entries[i], names[1..], d);
      assert root + [names[0]] + names[1..] == root + names;
      ResolveShift(u, root, cur, names[0], root + names);
      PlacesInHas(u, root, cur, dir.entries, |dir.entries|, i);
    }
  }

  lemma {:induction false} DirAtUnique(top: BaseDir, names: Elements, a: BaseDir, b: BaseDir)
    requires WellNamed(top) && DirAt(top, names, a) && DirAt(top, names, b)
    ensures a == b
    decreases |names|
  {
    if names != [] {
      var i :| DirAtVia(top, names, a, i);
      var j :| DirAtVia(top, names, b, j);
      assert WellNamedEntries(top.entries);
      assert i < j ==> DifferentNames(top.entries[i], top.entries[j]);
      assert j < i ==> DifferentNames(top.entries[j], top.entries[i]);
      assert i == j;
      DirAtUnique(top.entries[i], names[1..], a, b);
    }
  }

  // ---------------------------------------------------------------------------
  // Resolution by collections and by the update map agree
  // ---------------------------------------------------------------------------

  lemma MentionedMeansUpdated(t: Tree, u: Updates, cs: seq<Collection>, p: Elements)
    requires InflatedAs(t, u, cs) && CollectionsTyped(cs) && AllNonEmpty(p)
    ensures Mentioned(cs, p) <==> Print(p) in u
    ensures forall c :: c in cs && Mentions(c, p) && Print(p) in u ==> u[Print(p)] == UpdateOf(c)
  {
    forall c | c in cs && Mentions(c, p)
      ensures Print(p) in u && u[Print(p)] == UpdateOf(c)
    {
      var i :| 0 <= i < |cs| && cs[i] == c;
      assert UpdatesAt(cs, i, Print(p));
    }
    if Print(p) in u {
      var i :| UpdatesAt(cs, i, Print(p));
      assert cs[i] in cs && CollectionTyped(cs[i]);
      PrintInjective(cs[i].previousPath.value, p);
      assert Mentions(cs[i], p);
    }
  }

  ghost predicate MentionsNear(c: Collection, p: Elements)
    requires p != []
  {
    !c.state.NewState? && c.previousPath.Some? && c.previousPath.value != p && NearlyBelow(p, c.previousPath.value)
  }

  /**
   The change test in terms of paths: a subtree counts as changed if the tree has something
   at its new path, or if a collection mentions a path below it, or at or below a sibling
   whose name begins with its own.
   */
  lemma SubtreeChangedMeans(t: Tree, u: Updates, cs: seq<Collection>, now: Tree, oldPath: Elements,
                            cur: Option<Elements>)
    requires InflatedAs(t, u, cs) && CollectionsTyped(cs) && AllNonEmpty(oldPath) && oldPath != []
    ensures SubtreeChanged(now, u, oldPath, cur) <==>
      || (cur.Some? && Lookup(now, cur.value).Some? && (now[cur.value].collection.Some? || HasChild(now, cur.value)))
      || exists c :: c in cs && MentionsNear(c, oldPath)
  {
    if c :| c in cs && MentionsNear(c, oldPath) {
      assert CollectionTyped(c);
      StringPrefixIff(oldPath, c.previousPath.value);
      MentionedMeansUpdated(t, u, cs, c.previousPath.value);
      assert Mentions(c, c.previousPath.value) && Print(c.previousPath.value) in u;
    }
    if k :| k in u && StrictStringPrefix(Print(oldPath), k) {
      var i :| UpdatesAt(cs, i, k);
      assert cs[i] in cs && CollectionTyped(cs[i]);
      StringPrefixIff(oldPath, cs[i].previousPath.value);
      assert MentionsNear(cs[i], oldPath);
    }
  }

  lemma {:induction false} ResolveAgrees(t: Tree, u: Updates, cs: seq<Collection>, root: Elements, p: Elements)
    requires InflatedAs(t, u, cs) && CollectionsTyped(cs) && AllNonEmpty(p)
    requires root != [] && root <= p
    ensures Resolve(cs, root, p)
         == ResolveAt(u, root, Resolved(u, root, Some(Parent(NewSubtreePath(u, root))), root[|root| - 1]), p)
    decreases |p|
  {
    MentionedMeansUpdated(t, u, cs, p);
    if p == root {
      assert !Mentioned(cs, p) ==> Extend(Parent(root), root[|root| - 1]) == root by {
        assert Parent(root) + [root[|root| - 1]] == root;
      }
    } else {
      ResolveAgrees(t, u, cs, root, p[..|p| - 1]);
    }
  }

  lemma HoldsNonEmpty(s: Subtree, p: Elements, d: BaseDir)
    requires |s.path| == 4 && AllNonEmpty(s.path) && WellNamed(s.root) && Holds(s, p, d)
    ensures AllNonEmpty(p)
  {
    DirAtNonEmpty(s.root, p[1..], d);
    assert p == [s.path[0]] + p[1..];
  }

  lemma PlaceIsHeld(t: Tree, u: Updates, cs: seq<Collection>, s: Subtree, pl: Place)
    requires InflatedAs(t, u, cs) && CollectionsTyped(cs)
    requires |s.path| == 4 && AllNonEmpty(s.path) && WellNamed(s.root)
    requires pl in SubtreePlaces(u, s)
    ensures Holds(s, pl.oldPath, pl.dir) && pl.cur == Resolve(cs, s.path, pl.oldPath)
  {
    SubtreeTop(s);
    var top, expected := Nested(s.root, PopFront(s.path)).dir, Some(Parent(NewSubtreePath(u, s.path)));
    PlacesSound(u, Parent(s.path), expected, top, pl);
    HoldsBelowRoot(s, pl.oldPath, pl.dir);
    HoldsNonEmpty(s, pl.oldPath, pl.dir);
    ResolveAgrees(t, u, cs, s.path, pl.oldPath);
  }

  lemma HeldIsPlace(t: Tree, u: Updates, cs: seq<Collection>, s: Subtree, pl: Place)
    requires InflatedAs(t, u, cs) && CollectionsTyped(cs)
    requires |s.path| == 4 && AllNonEmpty(s.path) && WellNamed(s.root)
    requires Holds(s, pl.oldPath, pl.dir) && pl.cur == Resolve(cs, s.path, pl.oldPath)
    ensures pl in SubtreePlaces(u, s)
  {
    HoldsBelowRoot(s, pl.oldPath, pl.dir);
    SubtreeTop(s);
    var top, expected := Nested(s.root, PopFront(s.path)).dir, Some(Parent(NewSubtreePath(u, s.path)));
    HoldsNonEmpty(s, pl.oldPath, pl.dir);
    ResolveAgrees(t, u, cs, s.path, pl.oldPath);
    var names := pl.oldPath[|s.path|..];
    assert s.path + names == pl.oldPath;
    PlacesComplete(u, Parent(s.path), expected, top, names, pl.dir);
  }

  /** The places of a subtree are exactly its directories, with their resolutions. */
  lemma SubtreePlacesAre(t: Tree, u: Updates, cs: seq<Collection>, s: Subtree, pl: Place)
    requires InflatedAs(t, u, cs) && CollectionsTyped(cs)
    requires |s.path| == 4 && AllNonEmpty(s.path) && WellNamed(s.root)
    ensures pl in SubtreePlaces(u, s) <==>
      Holds(s, pl.oldPath, pl.dir) && pl.cur == Resolve(cs, s.path, pl.oldPath)
  {
    if pl in SubtreePlaces(u, s) {
      PlaceIsHeld(t, u, cs, s, pl);
    } else if Holds(s, pl.oldPath, pl.dir) && pl.cur == Resolve(cs, s.path, pl.oldPath) {
      HeldIsPlace(t, u, cs, s, pl);
    }
  }

  ghost predicate PlaceIn(u: Updates, ss: seq<Subtree>, i: int, pl: Place) {
    0 <= i < |ss| && pl in SubtreePlaces(u, ss[i])
  }

  ghost predicate InSomePlaces(u: Updates, ss: seq<Subtree>, pl: Place) {
    exists i :: PlaceIn(u, ss, i, pl)
  }

  lemma {:induction false} AllPlacesAre(u: Updates, ss: seq<Subtree>, pl: Place)
    ensures pl in AllPlaces(u, ss) <==> InSomePlaces(u, ss, pl)
    decreases |ss|
  {
    if ss != [] {
      var init := ss[..|ss| - 1];
      AllPlacesAre(u, init, pl);
      PlaceInSnoc(u, init, ss[|ss| - 1], pl);
      assert init + [ss[|ss| - 1]] == ss;
    }
  }

  lemma PlaceInSnoc(u: Updates, init: seq<Subtree>, s: Subtree, pl: Place)
    ensures InSomePlaces(u, init + [s], pl) <==> InSomePlaces(u, init, pl) || pl in SubtreePlaces(u, s)
  {
    var ss := init + [s];
    if i :| PlaceIn(u, init, i, pl) {
      assert PlaceIn(u, ss, i, pl);
    }
    if pl in SubtreePlaces(u, s) {
      assert PlaceIn(u, ss, |init|, pl);
    }
    if i :| PlaceIn(u, ss, i, pl) {
      assert i < |init| ==> PlaceIn(u, init, i, pl);
    }
  }

  lemma SameDirectory(ss: seq<Subtree>, i: nat, j: nat, p: Elements, a: BaseDir, b: BaseDir)
    requires SubtreesTyped(ss) && i < |ss| && j < |ss|
    requires Holds(ss[i], p, a) && Holds(ss[j], p, b)
    ensures a == b
  {
    assert ss[i].path == p[..4] == ss[j].path;
    assert i == j;
    DirAtUnique(ss[i].root, p[1..], a, b);
  }

  lemma AttachesMeans(t: Tree, u: Updates, cs: seq<Collection>, pl: Place)
    requires InflatedAs(t, u, cs)
    ensures Attaches(t, pl) <==> pl.cur.Some? && MayGo(cs, pl.dir, pl.cur.value)
  {
    if pl.cur.Some? {
      SkipsMeansTarget(t, u, cs, pl.cur.value);
    }
  }

  lemma SkipsMeansTarget(t: Tree, u: Updates, cs: seq<Collection>, p: Elements)
    requires InflatedAs(t, u, cs)
    ensures Skips(t, p) <==> TargetSkips(cs, p)
    ensures CollectionAt(t, p).Some? <==> Occupied(cs, p)
  {
    forall c
      ensures LiveAt(cs, p, c) <==> CollectionAt(t, p) == Some(c)
    {
      LiveAtIsCollectionAt(t, cs, p, c);
    }
    OnlyOneLive(cs, p, CollectionAt(t, p));
  }

  lemma OnlyOneLive(cs: seq<Collection>, p: Elements, live: Option<Collection>)
    requires forall c :: LiveAt(cs, p, c) <==> live == Some(c)
    ensures Occupied(cs, p) <==> live.Some?
    ensures TargetSkips(cs, p) <==> live.Some? && (live.value.doNotMerge || live.value.state.NewState?)
  {
    if live.Some? {
      assert LiveAt(cs, p, live.value);
    }
  }

  lemma InjectivePlaces(t: Tree, u: Updates, cs: seq<Collection>, ss: seq<Subtree>)
    requires InflatedAs(t, u, cs) && CollectionsTyped(cs) && SubtreesTyped(ss)
    requires InjectiveResolution(cs, ss)
    ensures Injective(t, AllPlaces(u, ss))
  {
    forall a, b | a in AllPlaces(u, ss) && b in AllPlaces(u, ss) && SameTarget(a, b) && Attaches(t, a) && Attaches(t, b)
      ensures a == b
    {
      AllPlacesAre(u, ss, a);
      AllPlacesAre(u, ss, b);
      var i :| PlaceIn(u, ss, i, a);
      var j :| PlaceIn(u, ss, j, b);
      PlaceIsHeld(t, u, cs, ss[i], a);
      PlaceIsHeld(t, u, cs, ss[j], b);
      AttachesMeans(t, u, cs, a);
      AttachesMeans(t, u, cs, b);
      assert ss[i] in ss && ss[j] in ss;
      assert a.oldPath == b.oldPath;
      SameDirectory(ss, i, j, a.oldPath, a.dir, b.dir);
    }
  }

  // ---------------------------------------------------------------------------
  // The collection tree
  // ---------------------------------------------------------------------------

  lemma CollectionTreeOk(t: Tree, u: Updates, cs: seq<Collection>)
    requires InflatedAs(t, u, cs)
    ensures TreeOk(t) && forall p :: BaseAt(t, p) == None
  {
    assert forall p :: p in t && t[p].collection.Some? ==> CollectionOf(cs, p, t[p]);
  }

  lemma CollectionTreeEmits(t: Tree, u: Updates, cs: seq<Collection>, excl: Excludes, e: Emitted)
    requires InflatedAs(t, u, cs)
    ensures Emits(t, excl, e) <==> StreamedLive(cs, e)
  {
    if Emits(t, excl, e) {
      var p :| p in t && NodeEmits(t[p], excl, e);
      assert StreamEmits(t[p], e);
      assert CollectionOf(cs, p, t[p]);
    }
    if StreamedLive(cs, e) {
      var c :| c in cs && c.Live() && c.fullPath == Some(e.dir) && e.item in c.items;
      var i :| 0 <= i < |cs| && cs[i] == c;
      assert CollectionAt(t, e.dir) == Some(c);
      assert CollectionOf(cs, e.dir, t[e.dir]);
      assert NodeEmits(t[e.dir], excl, e);
    }
  }

  lemma UpdatesAreTyped(t: Tree, u: Updates, cs: seq<Collection>)
    requires InflatedAs(t, u, cs) && CollectionsTyped(cs)
    ensures UpdatesTyped(u)
  {
    forall k | k in u
      ensures OptionNonEmpty(u[k].p)
    {
      var i :| UpdatesAt(cs, i, k);
      assert cs[i] in cs && CollectionTyped(cs[i]);
      assert u[k] == UpdateOf(cs[i]);
    }
  }

  lemma LiveAtIsCollectionAt(t: Tree, cs: seq<Collection>, p: Elements, c: Collection)
    requires TreeComplete(t, cs) && TreeSound(t, cs)
    ensures LiveAt(cs, p, c) <==> CollectionAt(t, p) == Some(c)
  {
    if LiveAt(cs, p, c) {
      var i :| 0 <= i < |cs| && cs[i] == c;
      assert CollectionAt(t, cs[i].fullPath.value) == Some(cs[i]);
    }
    if CollectionAt(t, p) == Some(c) {
      assert CollectionOf(cs, p, t[p]);
    }
  }

  lemma PlaceMerges(t: Tree, u: Updates, cs: seq<Collection>, s: Subtree, excl: Excludes, pl: Place, e: Emitted)
    requires InflatedAs(t, u, cs) && CollectionsTyped(cs)
    requires |s.path| == 4 && AllNonEmpty(s.path) && WellNamed(s.root)
    ensures pl in SubtreePlaces(u, s) && PlaceEmits(t, excl, pl, e) ==> Merges(cs, s, pl.dir, excl, e)
    ensures Merges(cs, s, pl.dir, excl, e) && pl.oldPath == e.prevDir && pl.cur == Some(e.dir) ==>
      pl in SubtreePlaces(u, s) && PlaceEmits(t, excl, pl, e)
  {
    SubtreePlacesAre(t, u, cs, s, pl);
    if e.FromBase? {
      AllowsMeans(t, u, cs, e.dir, e.name);
    }
  }

  /** What the collection at a path allows, in the tree and among the collections. */
  lemma AllowsMeans(t: Tree, u: Updates, cs: seq<Collection>, p: Elements, name: string)
    requires InflatedAs(t, u, cs)
    ensures TargetAllows(cs, p, name) <==> !Skips(t, p) && name !in Seen(CollectionAt(t, p))
  {
    forall c
      ensures LiveAt(cs, p, c) <==> CollectionAt(t, p) == Some(c)
    {
      LiveAtIsCollectionAt(t, cs, p, c);
    }
    AllowsByOne(cs, p, name, CollectionAt(t, p));
  }

  lemma AllowsByOne(cs: seq<Collection>, p: Elements, name: string, live: Option<Collection>)
    requires forall c :: LiveAt(cs, p, c) <==> live == Some(c)
    ensures TargetAllows(cs, p, name) <==>
      !(live.Some? && (live.value.doNotMerge || live.value.state.NewState?)) && name !in Seen(live)
  {
    if live.Some? {
      assert LiveAt(cs, p, live.value);
    }
  }

  lemma PlacesMerge(t: Tree, u: Updates, cs: seq<Collection>, ss: seq<Subtree>, excl: Excludes, e: Emitted)
    requires InflatedAs(t, u, cs) && CollectionsTyped(cs) && SubtreesTyped(ss)
    ensures PlacesEmit(t, excl, AllPlaces(u, ss), e) <==> MergedFromBase(cs, ss, excl, e)
  {
    if PlacesEmit(t, excl, AllPlaces(u, ss), e) {
      var pl :| pl in AllPlaces(u, ss) && PlaceEmits(t, excl, pl, e);
      AllPlacesAre(u, ss, pl);
      var i :| PlaceIn(u, ss, i, pl);
      PlaceMerges(t, u, cs, ss[i], excl, pl, e);
      assert ss[i] in ss;
    }
    if MergedFromBase(cs, ss, excl, e) {
      var s, d :| s in ss && Merges(cs, s, d, excl, e);
      var i :| 0 <= i < |ss| && ss[i] == s;
      var pl := Place(e.prevDir, Some(e.dir), d);
      PlaceMerges(t, u, cs, ss[i], excl, pl, e);
      assert PlaceIn(u, ss, i, pl);
      AllPlacesAre(u, ss, pl);
    }
  }

  /** A collection reports the root of a subtree as deleted that the snapshot holds. */
  ghost predicate DeletesRoot(c: Collection, s: Subtree) {
    c.state.DeletedState? && c.previousPath == Some(s.path) && HoldsRoot(s)
  }

  ghost predicate DeletesHeldRoot(cs: seq<Collection>, ss: seq<Subtree>) {
    exists i, c :: 0 <= i < |ss| && c in cs && DeletesRoot(c, ss[i])
  }

  ghost predicate Dereferences(u: Updates, s: Subtree) {
    HoldsRoot(s) ==> RootKept(u, s.path)
  }

  lemma DereferencesIff(cs: seq<Collection>, ss: seq<Subtree>)
    requires CollectionsTyped(cs) && SubtreesTyped(ss) && Inflate(cs).Ok?
    ensures (forall i :: 0 <= i < |ss| ==> Dereferences(Inflate(cs).value.1, ss[i])) <==> !DeletesHeldRoot(cs, ss)
  {
    var (t, u) := Inflate(cs).value;
    InflateMeans(cs);
    forall i | 0 <= i < |ss|
      ensures RootKept(u, ss[i].path) <==>
        forall c :: c in cs && c.state.DeletedState? ==> c.previousPath != Some(ss[i].path)
    {
      MentionedMeansUpdated(t, u, cs, ss[i].path);
      RootKeptIff(u, cs, ss[i].path);
    }
    if i, c :| 0 <= i < |ss| && c in cs && DeletesRoot(c, ss[i]) {
      assert !Dereferences(u, ss[i]);
    }
    if i :| 0 <= i < |ss| && !Dereferences(u, ss[i]) {
      var c :| c in cs && c.state.DeletedState? && c.previousPath == Some(ss[i].path);
      assert DeletesRoot(c, ss[i]);
    }
  }

  lemma RootKeptIff(u: Updates, cs: seq<Collection>, path: Elements)
    requires Mentioned(cs, path) <==> Print(path) in u
    requires forall c :: c in cs && Mentions(c, path) && Print(path) in u ==> u[Print(path)] == UpdateOf(c)
    requires forall i :: 0 <= i < |cs| ==> Complete(cs[i])
    ensures RootKept(u, path) <==> forall c :: c in cs && c.state.DeletedState? ==> c.previousPath != Some(path)
  {
    if Mentioned(cs, path) {
      var c :| c in cs && Mentions(c, path);
      var i :| 0 <= i < |cs| && cs[i] == c;
      assert u[Print(path)] == UpdateOf(c) && RootKept(u, path) == !c.state.DeletedState?;
    }
    forall c | c in cs && c.state.DeletedState? && c.previousPath == Some(path)
      ensures !RootKept(u, path)
    {
      assert Mentions(c, path);
    }
  }

  lemma {:induction false} SuccessDereferences(m: Mode, u: Updates, ss: seq<Subtree>, t: Tree, i: nat)
    requires SubtreesTyped(ss) && InflateSubtrees(m, u, ss, t).Ok? && i < |ss|
    ensures Dereferences(u, ss[i])
    decreases |ss|
  {
    HoldsRootMeans(ss[i]);
    if i < |ss| - 1 {
      SuccessDereferences(m, u, ss[..|ss| - 1], t, i);
    }
  }

  /** The merge panics if a collection deletes the root of a subtree that the snapshot holds. */
  lemma SuccessDeletesNoHeldRoot(prune: bool, bases: seq<Base>, cs: seq<Collection>)
    requires CollectionsTyped(cs) && SubtreesTyped(AllSubtrees(bases))
    requires InflateTrees(prune, bases, cs).Ok?
    ensures !DeletesHeldRoot(cs, AllSubtrees(bases))
  {
    var (t, u) := Inflate(cs).value;
    forall i | 0 <= i < |AllSubtrees(bases)|
      ensures Dereferences(u, AllSubtrees(bases)[i])
    {
      SuccessDereferences(Mode(prune, ReadBack), u, AllSubtrees(bases), t, i);
    }
    DereferencesIff(cs, AllSubtrees(bases));
  }

  // ---------------------------------------------------------------------------
  // Main theorems
  // ---------------------------------------------------------------------------

  /**
   Merge correctness.  Whenever the merge succeeds, the tree emits exactly the live
   streamed items, plus each base file whose directory resolves to a live path whose
   collection, if any, allows merging and has not reported the name, and which is not
   in the exclude set of that path.
   */
  lemma MergeCorrect(prune: bool, bases: seq<Base>, cs: seq<Collection>, excl: Excludes, e: Emitted)
    requires CollectionsTyped(cs) && SubtreesTyped(AllSubtrees(bases))
    requires InjectiveResolution(cs, AllSubtrees(bases))
    requires InflateTrees(prune, bases, cs).Ok?
    ensures Emits(InflateTrees(prune, bases, cs).value, excl, e) <==>
      StreamedLive(cs, e) || MergedFromBase(cs, AllSubtrees(bases), excl, e)
  {
    var ss := AllSubtrees(bases);
    var (t, u) := Inflate(cs).value;
    InflateMeans(cs);
    CollectionTreeOk(t, u, cs);
    UpdatesAreTyped(t, u, cs);
    InjectivePlaces(t, u, cs, ss);
    ReadBackFaithful(prune);
    InflateSubtreesEmits(Mode(prune, ReadBack), u, ss, t, excl, e);
    CollectionTreeEmits(t, u, cs, excl, e);
    PlacesMerge(t, u, cs, ss, excl, e);
  }

  /** Pruning refines full traversal: both emit the same files, from and to the same places. */
  lemma PruningRefinesFullTraversal(bases: seq<Base>, cs: seq<Collection>, excl: Excludes, e: Emitted)
    requires CollectionsTyped(cs) && SubtreesTyped(AllSubtrees(bases))
    requires InjectiveResolution(cs, AllSubtrees(bases))
    requires InflateTrees(true, bases, cs).Ok? && InflateTrees(false, bases, cs).Ok?
    ensures Emits(InflateTrees(true, bases, cs).value, excl, e) <==>
      Emits(InflateTrees(false, bases, cs).value, excl, e)
  {
    MergeCorrect(true, bases, cs, excl, e);
    MergeCorrect(false, bases, cs, excl, e);
  }
}
