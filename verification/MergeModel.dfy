/**
 The entities of src/internal/kopia/upload.go.  A hierarchy is a map from tree paths to
 nodes; base64 encoding of names is left out, so names are the decoded ones.
 */
module MergeModel {
  import opened Wrappers
  import opened PathEscaping

  datatype CollectionState = NewState | NotMovedState | MovedState | DeletedState

  /** `hasInfo`: the item can describe itself.  An item without a mod time gets the time it was read at. */
  datatype Item = Item(id: string, deleted: bool, hasInfo: bool, modTime: int)

  /** A PreviousLocationPather: each location is nil or present. */
  datatype Locations = Locations(previous: Option<Elements>, current: Option<Elements>)

  datatype Collection = Collection(
    state: CollectionState,
    fullPath: Option<Elements>,
    previousPath: Option<Elements>,
    doNotMerge: bool,
    locations: Option<Locations>,
    items: seq<Item>)
  {
    predicate Live() {
      !state.DeletedState?
    }

    /** The source dereferences the previous path of moved and unmoved collections. */
    predicate Typed() {
      state.MovedState? || state.NotMovedState? ==> previousPath.Some?
    }

    /** The base directory at the collection's path must not contribute items. */
    predicate SkipsMerge() {
      doNotMerge || state.NewState?
    }
  }

  /** An entry of a base snapshot. */
  datatype BaseEntry =
    | BaseFile(name: string, modTime: int)
    | Directory(name: string, entries: seq<BaseEntry>)

  type BaseDir = e: BaseEntry | e.Directory? witness Directory("", [])

  /** `snapshotParams`. */
  datatype Node = Node(
    collection: Option<Collection>,
    baseDir: Option<BaseDir>,
    currentPath: Option<Elements>,
    prevPath: Option<Elements>,
    streamBaseEnts: bool)

  const EMPTY_NODE := Node(None, None, None, None, false)

  type Tree = map<Elements, Node>

  datatype PathUpdate = PathUpdate(p: Option<Elements>, state: CollectionState)

  type Updates = map<string, PathUpdate>

  datatype MergeError =
    | NilPreviousPath
    | NilPreviousLocation
    | NilLocation
    | DuplicateLocation
    | NoIdentifier
    | MultipleInstances
    | ConflictingStates
    | TooTall
    | NoTreeNode
    | BadPath
    | SubtreeNotDirectory
    | NilDereference
    | MultipleRoots

  // ---------------------------------------------------------------------------
  // Trees
  // ---------------------------------------------------------------------------

  ghost predicate PrefixClosed(t: Tree) {
    && [] !in t
    && forall p, i :: p in t && 0 < i <= |p| ==> p[..i] in t
  }

  function Prefixes(p: Elements): set<Elements> {
    set i | 0 < i <= |p| :: p[..i]
  }

  /** `getTreeNode`: every missing node on the way to `p` is created empty. */
  function WithNode(t: Tree, p: Elements): (r: Tree)
    ensures r.Keys == t.Keys + Prefixes(p)
    ensures forall q :: q in t ==> r[q] == t[q]
    ensures forall q :: q in r && q !in t ==> r[q] == EMPTY_NODE
    ensures p != [] ==> p in r
  {
    assert p != [] ==> p[..|p|] == p && p in Prefixes(p);
    map q | q in t.Keys + Prefixes(p) :: if q in t then t[q] else EMPTY_NODE
  }

  lemma WithNodePrefixClosed(t: Tree, p: Elements)
    requires PrefixClosed(t)
    ensures PrefixClosed(WithNode(t, p))
  {
    var r := WithNode(t, p);
    forall q, i | q in r && 0 < i <= |q|
      ensures q[..i] in r
    {
      if q !in t {
        var j :| 0 < j <= |p| && q == p[..j];
        assert q[..i] == p[..i];
      }
    }
  }

  lemma {:induction false} PrefixInTree(t: Tree, p: Elements, q: Elements)
    requires PrefixClosed(t) && q in t && p != [] && p <= q
    ensures p in t
  {
    assert q[..|p|] == p;
  }

  /** `maybeGetTreeNode`. */
  function Lookup(t: Tree, p: Elements): Option<Node> {
    if p != [] && p in t then Some(t[p]) else None
  }

  function CollectionAt(t: Tree, p: Elements): Option<Collection> {
    if p in t then t[p].collection else None
  }

  function BaseAt(t: Tree, p: Elements): Option<BaseDir> {
    if p in t then t[p].baseDir else None
  }

  ghost predicate HasChild(t: Tree, p: Elements) {
    exists e :: p + [e] in t
  }
}
