/**
 `inflateCollectionTree` as a fold over the collections, and the theorem that says
 exactly which inputs it accepts and what it then returns.
 */
module CollectionInflation {
  import opened Wrappers
  import opened PathEscaping
  import opened MergeModel

  datatype InflateState = InflateState(
    tree: Tree,
    updates: Updates,
    changed: seq<Elements>,
    failed: bool,
    locations: map<string, Elements>)

  const START := InflateState(map[], map[], [], false, map[])

  /** Records the state change of the collection's previous path. */
  function RecordUpdate(s: InflateState, prev: Elements, update: PathUpdate): InflateState {
    s.(failed := s.failed || Print(prev) in s.updates, updates := s.updates[Print(prev) := update])
  }

  /** `addMergeLocation`. */
  function AddMergeLocation(s: InflateState, c: Collection): Result<InflateState, MergeError> {
    match c.locations
    case None => Ok(s)
    case Some(Locations(None, _)) => Err(NilPreviousLocation)
    case Some(Locations(_, None)) => Err(NilLocation)
    case Some(Locations(Some(prev), Some(cur))) =>
      if Print(prev) in s.locations then Err(DuplicateLocation)
      else Ok(s.(locations := s.locations[Print(prev) := cur]))
  }

  /** Puts a live collection at its full path. */
  function PutCollection(s: InflateState, c: Collection): Result<InflateState, MergeError> {
    if c.fullPath.None? || c.fullPath.value == [] then Err(NoIdentifier)
    else
      var p := c.fullPath.value;
      var t := WithNode(s.tree, p);
      if t[p].collection.Some? then Err(MultipleInstances)
      else Ok(s.(tree := t[p := t[p].(collection := Some(c), currentPath := c.fullPath, prevPath := c.previousPath)]))
  }

  /** Everything the loop does for a collection before it looks at the full path. */
  function Book(s: InflateState, c: Collection): Result<InflateState, MergeError>
    requires c.Typed()
  {
    match c.state
    case NewState => Ok(s)
    case DeletedState =>
      if c.previousPath.None? then Err(NilPreviousPath)
      else
        var prev := c.previousPath.value;
        Ok(RecordUpdate(s, prev, PathUpdate(None, DeletedState)).(changed := s.changed + [prev]))
    case MovedState =>
      var prev := c.previousPath.value;
      AddMergeLocation(
        RecordUpdate(s, prev, PathUpdate(c.fullPath, MovedState)).(changed := s.changed + [prev]), c)
    case NotMovedState =>
      Ok(RecordUpdate(s, c.previousPath.value, PathUpdate(c.fullPath, NotMovedState)))
  }

  function Step(s: InflateState, c: Collection): Result<InflateState, MergeError>
    requires c.Typed()
  {
    var booked :- Book(s, c);
    if c.Live() then PutCollection(booked, c) else Ok(booked)
  }

  function Fold(cs: seq<Collection>): Result<InflateState, MergeError>
    requires forall c :: c in cs ==> c.Typed()
  {
    if cs == [] then Ok(START)
    else
      var s :- Fold(cs[..|cs| - 1]);
      Step(s, cs[|cs| - 1])
  }

  /** The final check: a changed previous path must not be the path of an unmoved collection. */
  ghost predicate Conflicts(s: InflateState) {
    exists i :: 0 <= i < |s.changed| && ConflictAt(s.tree, s.changed[i])
  }

  predicate ConflictAt(t: Tree, p: Elements) {
    match Lookup(t, p)
    case Some(n) => n.collection.Some? && n.collection.value.state.NotMovedState?
    case None => false
  }

  ghost function Inflate(cs: seq<Collection>): Result<(Tree, Updates), MergeError>
    requires forall c :: c in cs ==> c.Typed()
  {
    var s :- Fold(cs);
    if s.failed || Conflicts(s) then Err(ConflictingStates) else Ok((s.tree, s.updates))
  }

  // ---------------------------------------------------------------------------
  // Which inputs are accepted
  // ---------------------------------------------------------------------------

  /** What a single collection must provide. */
  predicate Complete(c: Collection) {
    && (c.state.DeletedState? ==> c.previousPath.Some?)
    && (c.Live() ==> c.fullPath.Some? && c.fullPath.value != [])
    && (c.state.MovedState? && c.locations.Some? ==>
          c.locations.value.previous.Some? && c.locations.value.current.Some?)
  }

  predicate Placeable(c: Collection) {
    c.Live() && c.fullPath.Some? && c.fullPath.value != []
  }

  predicate SamePrevious(a: Collection, b: Collection) {
    && !a.state.NewState? && !b.state.NewState?
    && a.previousPath.Some? && b.previousPath.Some?
    && Print(a.previousPath.value) == Print(b.previousPath.value)
  }

  predicate SameFull(a: Collection, b: Collection) {
    a.Live() && b.Live() && a.fullPath == b.fullPath
  }

  predicate SameLocation(a: Collection, b: Collection) {
    && a.state.MovedState? && b.state.MovedState?
    && a.locations.Some? && b.locations.Some?
    && a.locations.value.previous.Some? && b.locations.value.previous.Some?
    && Print(a.locations.value.previous.value) == Print(b.locations.value.previous.value)
  }

  /** `a` left a path that `b` claims not to have moved from. */
  predicate Clash(a: Collection, b: Collection) {
    && (a.state.DeletedState? || a.state.MovedState?)
    && b.state.NotMovedState?
    && a.previousPath == b.fullPath
  }

  /** Conditions that make the loop return early. */
  ghost predicate Loadable(cs: seq<Collection>) {
    && (forall i :: 0 <= i < |cs| ==> Complete(cs[i]))
    && (forall i, j :: 0 <= i < |cs| && 0 <= j < |cs| && i != j ==>
          !SameFull(cs[i], cs[j]) && !SameLocation(cs[i], cs[j]))
  }

  ghost predicate DistinctPrevious(cs: seq<Collection>) {
    forall i, j :: 0 <= i < |cs| && 0 <= j < |cs| && i != j ==> !SamePrevious(cs[i], cs[j])
  }

  ghost predicate NoClash(cs: seq<Collection>) {
    forall i, j :: 0 <= i < |cs| && 0 <= j < |cs| ==> !Clash(cs[i], cs[j])
  }

  /** Independent of the order in which collections arrive. */
  ghost predicate Consistent(cs: seq<Collection>) {
    Loadable(cs) && DistinctPrevious(cs) && NoClash(cs)
  }

  // ---------------------------------------------------------------------------
  // What the fold computes
  // ---------------------------------------------------------------------------

  ghost predicate TreeShape(t: Tree) {
    && PrefixClosed(t)
    && (forall p :: p in t ==> t[p].baseDir.None? && !t[p].streamBaseEnts)
    && (forall p :: p in t && t[p].collection.None? ==> t[p] == EMPTY_NODE)
  }

  /** Every live collection is at its full path. */
  ghost predicate TreeComplete(t: Tree, cs: seq<Collection>) {
    forall i :: 0 <= i < |cs| && cs[i].Live() ==>
      cs[i].fullPath.Some? && CollectionAt(t, cs[i].fullPath.value) == Some(cs[i])
  }

  /** Nodes hold no other collections. */
  ghost predicate TreeSound(t: Tree, cs: seq<Collection>) {
    forall p :: p in t && t[p].collection.Some? ==> CollectionOf(cs, p, t[p])
  }

  /** Nodes exist only on the way to a live collection. */
  ghost predicate TreeCovered(t: Tree, cs: seq<Collection>) {
    forall p :: p in t ==> exists i :: 0 <= i < |cs| && LeadsTo(p, cs[i])
  }

  ghost predicate LeadsTo(p: Elements, c: Collection) {
    c.Live() && c.fullPath.Some? && p <= c.fullPath.value
  }

  ghost predicate TreeHolds(t: Tree, cs: seq<Collection>) {
    TreeShape(t) && TreeComplete(t, cs) && TreeSound(t, cs) && TreeCovered(t, cs)
  }

  ghost predicate CollectionOf(cs: seq<Collection>, p: Elements, n: Node) {
    && n.collection.Some? && n.collection.value in cs
    && n.collection.value.Live() && n.collection.value.fullPath == Some(p)
    && n.currentPath == Some(p) && n.prevPath == n.collection.value.previousPath
  }

  function UpdateOf(c: Collection): PathUpdate {
    PathUpdate(if c.state.DeletedState? then None else c.fullPath, c.state)
  }

  ghost predicate UpdateKeys(u: Updates, cs: seq<Collection>) {
    && (forall i :: 0 <= i < |cs| && !cs[i].state.NewState? ==>
          cs[i].previousPath.Some? && Print(cs[i].previousPath.value) in u)
    && (forall k :: k in u ==> exists i :: UpdatesAt(cs, i, k))
  }

  ghost predicate UpdatesAt(cs: seq<Collection>, i: int, k: string) {
    && 0 <= i < |cs| && !cs[i].state.NewState? && cs[i].previousPath.Some?
    && Print(cs[i].previousPath.value) == k
  }

  ghost predicate UpdateValues(u: Updates, cs: seq<Collection>) {
    forall i, k :: UpdatesAt(cs, i, k) && k in u ==> u[k] == UpdateOf(cs[i])
  }

  ghost predicate ChangedHolds(changed: seq<Elements>, cs: seq<Collection>) {
    && (forall p :: p in changed ==> exists i :: 0 <= i < |cs| && Left(cs[i], p))
    && (forall i :: 0 <= i < |cs| && (cs[i].state.DeletedState? || cs[i].state.MovedState?) ==>
          cs[i].previousPath.Some? && cs[i].previousPath.value in changed)
  }

  ghost predicate Left(c: Collection, p: Elements) {
    (c.state.DeletedState? || c.state.MovedState?) && c.previousPath == Some(p)
  }

  ghost predicate LocationsHold(ls: map<string, Elements>, cs: seq<Collection>) {
    && (forall k :: k in ls ==> exists i :: 0 <= i < |cs| && LocationTo(cs[i], k, ls[k]))
    && (forall i, k :: 0 <= i < |cs| && LocationKey(cs[i], k) ==> k in ls && LocationTo(cs[i], k, ls[k]))
  }

  /** A moved collection that was at the location that prints as `k`, and is now at `location`. */
  ghost predicate LocationTo(c: Collection, k: string, location: Elements) {
    LocationKey(c, k) && c.locations.value.current == Some(location)
  }

  ghost predicate LocationKey(c: Collection, k: string) {
    && c.state.MovedState? && c.locations.Some? && c.locations.value.previous.Some?
    && Print(c.locations.value.previous.value) == k
  }

  ghost predicate BooksHold(s: InflateState, cs: seq<Collection>) {
    && UpdateKeys(s.updates, cs)
    && (s.failed <==> !DistinctPrevious(cs))
    && (!s.failed ==> UpdateValues(s.updates, cs))
    && ChangedHolds(s.changed, cs)
    && LocationsHold(s.locations, cs)
  }

  ghost predicate FoldHolds(s: InflateState, cs: seq<Collection>) {
    TreeHolds(s.tree, cs) && BooksHold(s, cs)
  }

  lemma PlaceHolds(t: Tree, cs: seq<Collection>, c: Collection)
    requires TreeHolds(t, cs) && Placeable(c)
    ensures var n := WithNode(t, c.fullPath.value)[c.fullPath.value];
      && (n.collection.Some? <==> exists i :: 0 <= i < |cs| && SameFull(cs[i], c))
      && (n.collection.None? ==> n == EMPTY_NODE)
  {
    var p := c.fullPath.value;
    var n := WithNode(t, p)[p];
    if n.collection.Some? {
      var i :| 0 <= i < |cs| && cs[i] == n.collection.value;
      assert SameFull(cs[i], c);
    }
    forall i | 0 <= i < |cs| && SameFull(cs[i], c)
      ensures n.collection.Some?
    {
      assert CollectionAt(t, p) == Some(cs[i]);
    }
  }

  ghost function Placed(t: Tree, c: Collection): Tree
    requires c.fullPath.Some?
  {
    WithNode(t, c.fullPath.value)[c.fullPath.value :=
      EMPTY_NODE.(collection := Some(c), currentPath := c.fullPath, prevPath := c.previousPath)]
  }

  lemma PlaceKeepsShape(t: Tree, c: Collection)
    requires TreeShape(t) && Placeable(c)
    ensures TreeShape(Placed(t, c))
  {
    WithNodePrefixClosed(t, c.fullPath.value);
    assert Placed(t, c).Keys == WithNode(t, c.fullPath.value).Keys;
  }

  lemma PlaceKeepsSound(t: Tree, cs: seq<Collection>, c: Collection)
    requires TreeSound(t, cs) && Placeable(c)
    ensures TreeSound(Placed(t, c), cs + [c])
  {
    var t', cs' := Placed(t, c), cs + [c];
    assert cs'[|cs|] == c;
    forall q | q in t' && t'[q].collection.Some?
      ensures CollectionOf(cs', q, t'[q])
    {
      if q != c.fullPath.value {
        assert q in t && t[q] == t'[q];
        assert CollectionOf(cs, q, t[q]);
      }
    }
  }

  lemma PlaceKeepsComplete(t: Tree, cs: seq<Collection>, c: Collection)
    requires TreeComplete(t, cs) && Placeable(c)
    requires WithNode(t, c.fullPath.value)[c.fullPath.value] == EMPTY_NODE
    ensures TreeComplete(Placed(t, c), cs + [c])
  {
    var t', cs' := Placed(t, c), cs + [c];
    forall i | 0 <= i < |cs'| && cs'[i].Live()
      ensures cs'[i].fullPath.Some? && CollectionAt(t', cs'[i].fullPath.value) == Some(cs'[i])
    {
      if i < |cs| {
        assert cs'[i] == cs[i];
        assert CollectionAt(t, cs[i].fullPath.value) == Some(cs[i]);
      }
    }
  }

  lemma CoveredSnoc(t: Tree, cs: seq<Collection>, c: Collection)
    requires TreeCovered(t, cs)
    ensures TreeCovered(t, cs + [c])
    ensures Placeable(c) ==> TreeCovered(Placed(t, c), cs + [c])
  {
    var cs' := cs + [c];
    assert cs'[|cs|] == c;
    forall q | q in t
      ensures exists i :: 0 <= i < |cs'| && LeadsTo(q, cs'[i])
    {
      var i :| 0 <= i < |cs| && LeadsTo(q, cs[i]);
      assert LeadsTo(q, cs'[i]);
    }
    if Placeable(c) {
      forall q | q in Placed(t, c)
        ensures exists i :: 0 <= i < |cs'| && LeadsTo(q, cs'[i])
      {
        if q !in t {
          assert LeadsTo(q, cs'[|cs|]);
        }
      }
    }
  }

  lemma TreeSkips(t: Tree, cs: seq<Collection>, c: Collection)
    requires TreeHolds(t, cs) && !c.Live()
    ensures TreeHolds(t, cs + [c])
  {
    CoveredSnoc(t, cs, c);
    assert forall q :: q in t && t[q].collection.Some? ==> CollectionOf(cs, q, t[q]);
  }

  lemma RecordHolds(u: Updates, cs: seq<Collection>, c: Collection)
    requires UpdateKeys(u, cs) && !c.state.NewState? && c.previousPath.Some?
    ensures var k := Print(c.previousPath.value);
      && (k in u <==> exists i :: 0 <= i < |cs| && SamePrevious(cs[i], c))
      && UpdateKeys(u[k := UpdateOf(c)], cs + [c])
      && (k !in u && UpdateValues(u, cs) ==> UpdateValues(u[k := UpdateOf(c)], cs + [c]))
  {
    var k, cs' := Print(c.previousPath.value), cs + [c];
    if k in u {
      var i :| UpdatesAt(cs, i, k);
      assert SamePrevious(cs[i], c);
    }
    var u' := u[k := UpdateOf(c)];
    forall j | j in u'
      ensures exists i :: UpdatesAt(cs', i, j)
    {
      if j == k {
        assert UpdatesAt(cs', |cs|, j);
      } else {
        var i :| UpdatesAt(cs, i, j);
        assert UpdatesAt(cs', i, j);
      }
    }
    if k !in u && UpdateValues(u, cs) {
      forall i, j | UpdatesAt(cs', i, j) && j in u'
        ensures u'[j] == UpdateOf(cs'[i])
      {
        if i < |cs| {
          assert UpdatesAt(cs, i, j);
        }
      }
    }
  }

  lemma RecordSkips(u: Updates, cs: seq<Collection>, c: Collection)
    requires UpdateKeys(u, cs) && c.state.NewState?
    ensures UpdateKeys(u, cs + [c])
    ensures UpdateValues(u, cs) ==> UpdateValues(u, cs + [c])
  {
    var cs' := cs + [c];
    forall j | j in u
      ensures exists i :: UpdatesAt(cs', i, j)
    {
      var i :| UpdatesAt(cs, i, j);
      assert UpdatesAt(cs', i, j);
    }
    forall i, j | UpdatesAt(cs', i, j)
      ensures UpdatesAt(cs, i, j) && cs'[i] == cs[i]
    {
    }
  }

  lemma DistinctSnoc(cs: seq<Collection>, c: Collection)
    ensures DistinctPrevious(cs + [c]) <==>
      DistinctPrevious(cs) && forall i :: 0 <= i < |cs| ==> !SamePrevious(cs[i], c)
  {
    var cs' := cs + [c];
    assert forall i :: 0 <= i < |cs| ==> cs'[i] == cs[i];
    assert cs'[|cs|] == c;
    if DistinctPrevious(cs) && forall i :: 0 <= i < |cs| ==> !SamePrevious(cs[i], c) {
      forall i, j | 0 <= i < |cs'| && 0 <= j < |cs'| && i != j
        ensures !SamePrevious(cs'[i], cs'[j])
      {
        assert i < |cs| ==> !SamePrevious(cs[i], c);
        assert j < |cs| ==> !SamePrevious(cs[j], c);
      }
    }
    if DistinctPrevious(cs') {
      forall i, j | 0 <= i < |cs| && 0 <= j < |cs| && i != j
        ensures !SamePrevious(cs[i], cs[j])
      {
        assert !SamePrevious(cs'[i], cs'[j]);
      }
      forall i | 0 <= i < |cs|
        ensures !SamePrevious(cs[i], c)
      {
        assert !SamePrevious(cs'[i], cs'[|cs|]);
      }
    }
  }

  lemma LoadableSnoc(cs: seq<Collection>, c: Collection)
    requires c.Typed()
    ensures Loadable(cs + [c]) <==> Loadable(cs) && AcceptsBooks(cs, c) && AcceptsTree(cs, c)
  {
    var cs' := cs + [c];
    assert forall i :: 0 <= i < |cs| ==> cs'[i] == cs[i];
    assert cs'[|cs|] == c;
    if Loadable(cs') {
      forall i, j | 0 <= i < |cs| && 0 <= j < |cs| && i != j
        ensures !SameFull(cs[i], cs[j]) && !SameLocation(cs[i], cs[j])
      {
        assert !SameFull(cs'[i], cs'[j]) && !SameLocation(cs'[i], cs'[j]);
      }
      forall i | 0 <= i < |cs|
        ensures !SameFull(cs[i], c) && !SameLocation(cs[i], c)
      {
        assert !SameFull(cs'[i], cs'[|cs|]) && !SameLocation(cs'[i], cs'[|cs|]);
      }
    }
  }

  lemma ChangedSnoc(changed: seq<Elements>, cs: seq<Collection>, c: Collection)
    requires ChangedHolds(changed, cs)
    ensures c.state.DeletedState? || c.state.MovedState? ==> c.previousPath.Some? ==>
      ChangedHolds(changed + [c.previousPath.value], cs + [c])
    ensures !(c.state.DeletedState? || c.state.MovedState?) ==> ChangedHolds(changed, cs + [c])
  {
    var cs' := cs + [c];
    assert cs'[|cs|] == c;
    forall p | p in changed
      ensures exists i :: 0 <= i < |cs'| && Left(cs'[i], p)
    {
      var i :| 0 <= i < |cs| && Left(cs[i], p);
      assert Left(cs'[i], p);
    }
    if c.previousPath.Some? && (c.state.DeletedState? || c.state.MovedState?) {
      assert Left(cs'[|cs|], c.previousPath.value);
    }
  }

  /** What `addMergeLocation` accepts and how it extends the table of locations. */
  lemma LocationHolds(s: InflateState, cs: seq<Collection>, c: Collection)
    requires LocationsHold(s.locations, cs) && c.state.MovedState?
    ensures var r := AddMergeLocation(s, c);
      && (r.Ok? <==>
            && (c.locations.Some? ==> c.locations.value.previous.Some? && c.locations.value.current.Some?)
            && forall i :: 0 <= i < |cs| ==> !SameLocation(cs[i], c))
      && (r.Ok? ==> r.value == s.(locations := r.value.locations) && LocationsHold(r.value.locations, cs + [c]))
  {
    if c.locations.Some? && c.locations.value.previous.Some? {
      LocationTaken(s.locations, cs, c, Print(c.locations.value.previous.value));
    }
    var r := AddMergeLocation(s, c);
    if r.Ok? {
      LocationsSnoc(s.locations, cs, c);
      if c.locations.Some? {
        LocationAdded(s.locations, cs, c, Print(c.locations.value.previous.value), c.locations.value.current.value);
      }
    }
  }

  lemma LocationTaken(ls: map<string, Elements>, cs: seq<Collection>, c: Collection, k: string)
    requires LocationsHold(ls, cs) && LocationKey(c, k)
    ensures k in ls <==> exists i :: 0 <= i < |cs| && SameLocation(cs[i], c)
  {
    if k in ls {
      var i :| 0 <= i < |cs| && LocationTo(cs[i], k, ls[k]);
      assert SameLocation(cs[i], c);
    }
    forall i | 0 <= i < |cs| && SameLocation(cs[i], c)
      ensures k in ls
    {
      assert LocationKey(cs[i], k);
    }
  }

  lemma LocationsSnoc(ls: map<string, Elements>, cs: seq<Collection>, c: Collection)
    requires LocationsHold(ls, cs)
    ensures (forall k :: !LocationKey(c, k)) ==> LocationsHold(ls, cs + [c])
  {
    var cs' := cs + [c];
    forall k | k in ls
      ensures exists i :: 0 <= i < |cs'| && LocationTo(cs'[i], k, ls[k])
    {
      var i :| 0 <= i < |cs| && LocationTo(cs[i], k, ls[k]);
      assert LocationTo(cs'[i], k, ls[k]);
    }
  }

  lemma LocationAdded(ls: map<string, Elements>, cs: seq<Collection>, c: Collection, k: string, v: Elements)
    requires LocationsHold(ls, cs) && LocationTo(c, k, v) && k !in ls
    ensures LocationsHold(ls[k := v], cs + [c])
  {
    var ls', cs' := ls[k := v], cs + [c];
    forall x | x in ls'
      ensures exists i :: 0 <= i < |cs'| && LocationTo(cs'[i], x, ls'[x])
    {
      if x == k {
        assert LocationTo(cs'[|cs|], k, v);
      } else {
        var i :| 0 <= i < |cs| && LocationTo(cs[i], x, ls[x]);
        assert LocationTo(cs'[i], x, ls'[x]);
      }
    }
  }

  /** The fold succeeds exactly on loadable inputs, and then its state means what it should. */
  lemma {:induction false} FoldMeans(cs: seq<Collection>)
    requires forall c :: c in cs ==> c.Typed()
    ensures Fold(cs).Ok? <==> Loadable(cs)
    ensures Fold(cs).Ok? ==> FoldHolds(Fold(cs).value, cs)
  {
    if cs == [] {
    } else {
      var init, c := cs[..|cs| - 1], cs[|cs| - 1];
      assert init + [c] == cs;
      FoldMeans(init);
      LoadableSnoc(init, c);
      var s := Fold(init);
      if s.Ok? {
        StepMeans(s.value, init, c);
        assert Fold(cs) == Step(s.value, c);
      }
    }
  }

  ghost predicate AcceptsTree(cs: seq<Collection>, c: Collection) {
    c.Live() ==> Placeable(c) && forall i :: 0 <= i < |cs| ==> !SameFull(cs[i], c)
  }

  ghost predicate AcceptsBooks(cs: seq<Collection>, c: Collection) {
    && (c.state.DeletedState? ==> c.previousPath.Some?)
    && (c.state.MovedState? && c.locations.Some? ==>
          c.locations.value.previous.Some? && c.locations.value.current.Some?)
    && forall i :: 0 <= i < |cs| ==> !SameLocation(cs[i], c)
  }

  lemma BooksNew(s: InflateState, cs: seq<Collection>, c: Collection)
    requires BooksHold(s, cs) && c.state.NewState?
    ensures BooksHold(s, cs + [c])
  {
    DistinctSnoc(cs, c);
    ChangedSnoc(s.changed, cs, c);
    LocationsSnoc(s.locations, cs, c);
    RecordSkips(s.updates, cs, c);
  }

  /** The books after a non-new collection, apart from its merge location. */
  ghost function Booked(s: InflateState, c: Collection): InflateState
    requires !c.state.NewState? && c.previousPath.Some?
  {
    var prev := c.previousPath.value;
    RecordUpdate(s, prev, UpdateOf(c))
      .(changed := if c.state.NotMovedState? then s.changed else s.changed + [prev])
  }

  lemma BooksRecorded(s: InflateState, cs: seq<Collection>, c: Collection)
    requires BooksHold(s, cs) && !c.state.NewState? && c.previousPath.Some?
    ensures forall ls: map<string, Elements> {:trigger LocationsHold(ls, cs + [c])} ::
      LocationsHold(ls, cs + [c]) ==> BooksHold(Booked(s, c).(locations := ls), cs + [c])
  {
    DistinctSnoc(cs, c);
    ChangedSnoc(s.changed, cs, c);
    RecordHolds(s.updates, cs, c);
  }

  lemma BookMeans(s: InflateState, cs: seq<Collection>, c: Collection)
    requires BooksHold(s, cs) && c.Typed()
    ensures Book(s, c).Ok? <==> AcceptsBooks(cs, c)
    ensures Book(s, c).Ok? ==> Book(s, c).value.tree == s.tree && BooksHold(Book(s, c).value, cs + [c])
  {
    if c.state.NewState? {
      BooksNew(s, cs, c);
    } else if c.previousPath.Some? {
      BooksRecorded(s, cs, c);
      if c.state.MovedState? {
        LocationHolds(Booked(s, c), cs, c);
        assert Book(s, c) == AddMergeLocation(Booked(s, c), c);
      } else {
        LocationsSnoc(s.locations, cs, c);
        assert Book(s, c) == Ok(Booked(s, c).(locations := s.locations));
      }
    }
  }

  /** `PutCollection` succeeds unless the path is missing or taken, and changes only the tree. */
  lemma PlaceMeans(s: InflateState, cs: seq<Collection>, c: Collection)
    requires TreeHolds(s.tree, cs) && c.Live()
    ensures PutCollection(s, c).Ok? <==> AcceptsTree(cs, c)
    ensures PutCollection(s, c).Ok? ==> PutCollection(s, c).value == s.(tree := Placed(s.tree, c))
    ensures PutCollection(s, c).Ok? ==> TreeHolds(Placed(s.tree, c), cs + [c])
  {
    if Placeable(c) {
      PlaceHolds(s.tree, cs, c);
      if WithNode(s.tree, c.fullPath.value)[c.fullPath.value].collection.None? {
        PlaceKeeps(s.tree, cs, c);
      }
    }
  }

  lemma PlaceKeeps(t: Tree, cs: seq<Collection>, c: Collection)
    requires TreeHolds(t, cs) && Placeable(c)
    requires WithNode(t, c.fullPath.value)[c.fullPath.value] == EMPTY_NODE
    ensures TreeHolds(Placed(t, c), cs + [c])
  {
    PlaceKeepsShape(t, c);
    PlaceKeepsSound(t, cs, c);
    PlaceKeepsComplete(t, cs, c);
    CoveredSnoc(t, cs, c);
  }

  lemma StepMeans(s: InflateState, cs: seq<Collection>, c: Collection)
    requires FoldHolds(s, cs) && c.Typed()
    ensures Step(s, c).Ok? <==> AcceptsBooks(cs, c) && AcceptsTree(cs, c)
    ensures Step(s, c).Ok? ==> FoldHolds(Step(s, c).value, cs + [c])
  {
    BookMeans(s, cs, c);
    if Book(s, c).Ok? {
      var booked := Book(s, c).value;
      if c.Live() {
        PlaceMeans(booked, cs, c);
        if PutCollection(booked, c).Ok? {
          BooksIgnoreTree(booked, Placed(s.tree, c), cs + [c]);
        }
      } else {
        TreeSkips(s.tree, cs, c);
      }
    }
  }

  lemma BooksIgnoreTree(s: InflateState, t: Tree, cs: seq<Collection>)
    requires BooksHold(s, cs)
    ensures BooksHold(s.(tree := t), cs)
  {
  }

  // ---------------------------------------------------------------------------
  // Acceptance
  // ---------------------------------------------------------------------------

  lemma ConflictIsClash(s: InflateState, cs: seq<Collection>, p: Elements)
    requires TreeSound(s.tree, cs) && ChangedHolds(s.changed, cs)
    requires p in s.changed && ConflictAt(s.tree, p)
    ensures !NoClash(cs)
  {
    var a :| 0 <= a < |cs| && Left(cs[a], p);
    assert CollectionOf(cs, p, s.tree[p]);
    var b :| 0 <= b < |cs| && cs[b] == s.tree[p].collection.value;
    assert Clash(cs[a], cs[b]);
  }

  lemma ClashIsConflict(s: InflateState, cs: seq<Collection>, a: nat, b: nat)
    requires TreeComplete(s.tree, cs) && ChangedHolds(s.changed, cs)
    requires a < |cs| && b < |cs| && Complete(cs[b]) && Clash(cs[a], cs[b])
    ensures Conflicts(s)
  {
    var p := cs[b].fullPath.value;
    assert CollectionAt(s.tree, p) == Some(cs[b]);
    var i :| 0 <= i < |s.changed| && s.changed[i] == p;
    assert ConflictAt(s.tree, s.changed[i]);
  }

  lemma ConflictsMeansClash(s: InflateState, cs: seq<Collection>)
    requires FoldHolds(s, cs) && Loadable(cs)
    ensures Conflicts(s) <==> !NoClash(cs)
  {
    if Conflicts(s) {
      var i :| 0 <= i < |s.changed| && ConflictAt(s.tree, s.changed[i]);
      ConflictIsClash(s, cs, s.changed[i]);
    }
    if !NoClash(cs) {
      var a, b :| 0 <= a < |cs| && 0 <= b < |cs| && Clash(cs[a], cs[b]);
      ClashIsConflict(s, cs, a, b);
    }
  }

  /**
   `inflateCollectionTree` succeeds exactly on consistent inputs.  Then the tree holds
   each live collection at its full path and nothing else, and the update map takes
   each previous path to the one new path, or to nothing if it was deleted.
   */
  lemma InflateMeans(cs: seq<Collection>)
    requires forall c :: c in cs ==> c.Typed()
    ensures Inflate(cs).Ok? <==> Consistent(cs)
    ensures Inflate(cs).Ok? ==> InflatedAs(Inflate(cs).value.0, Inflate(cs).value.1, cs)
  {
    FoldMeans(cs);
    if Loadable(cs) {
      ConflictsMeansClash(Fold(cs).value, cs);
    }
  }

  ghost predicate InflatedAs(t: Tree, u: Updates, cs: seq<Collection>) {
    TreeHolds(t, cs) && UpdateKeys(u, cs) && UpdateValues(u, cs)
  }

  /** `ds` lists the collections of `cs` in a different order; `back` undoes `order`. */
  ghost predicate Reordered(cs: seq<Collection>, ds: seq<Collection>, order: seq<nat>, back: seq<nat>) {
    && |order| == |back| == |cs| == |ds|
    && forall i :: 0 <= i < |cs| ==> Reorders(cs, ds, order, back, i)
  }

  ghost predicate Reorders(cs: seq<Collection>, ds: seq<Collection>, order: seq<nat>, back: seq<nat>, i: nat)
    requires |order| == |back| == |cs| == |ds| && i < |cs|
  {
    && order[i] < |cs| && back[order[i]] == i && ds[i] == cs[order[i]]
    && back[i] < |cs| && order[back[i]] == i
  }

  ghost predicate Compatible(a: Collection, b: Collection) {
    !SameFull(a, b) && !SameLocation(a, b) && !SamePrevious(a, b)
  }

  lemma ReorderedPairs(cs: seq<Collection>, ds: seq<Collection>, order: seq<nat>, back: seq<nat>, i: nat, j: nat)
    requires Reordered(cs, ds, order, back) && i < |ds| && j < |ds|
    ensures order[i] < |cs| && order[j] < |cs| && ds[i] == cs[order[i]] && ds[j] == cs[order[j]]
    ensures i != j ==> order[i] != order[j]
  {
    assert Reorders(cs, ds, order, back, i) && Reorders(cs, ds, order, back, j);
  }

  lemma ReorderedKeepsConsistent(cs: seq<Collection>, ds: seq<Collection>, order: seq<nat>, back: seq<nat>)
    requires Reordered(cs, ds, order, back) && Consistent(cs)
    ensures Consistent(ds)
  {
    forall i, j | 0 <= i < |ds| && 0 <= j < |ds|
      ensures Complete(ds[i]) && (i != j ==> Compatible(ds[i], ds[j])) && !Clash(ds[i], ds[j])
    {
      ReorderedPairs(cs, ds, order, back, i, j);
      var a, b := order[i], order[j];
      assert Complete(cs[a]) && (a != b ==> Compatible(cs[a], cs[b])) && !Clash(cs[a], cs[b]);
    }
  }

  lemma ReorderedIsSymmetric(cs: seq<Collection>, ds: seq<Collection>, order: seq<nat>, back: seq<nat>)
    requires Reordered(cs, ds, order, back)
    ensures Reordered(ds, cs, back, order)
    ensures SameMembers(cs, ds)
  {
    forall i | 0 <= i < |cs|
      ensures Reorders(ds, cs, back, order, i) && cs[i] in ds && ds[i] in cs
    {
      assert Reorders(cs, ds, order, back, i);
      assert Reorders(cs, ds, order, back, back[i]);
    }
  }

  ghost predicate SameMembers(cs: seq<Collection>, ds: seq<Collection>) {
    && (forall i :: 0 <= i < |cs| ==> cs[i] in ds)
    && (forall i :: 0 <= i < |ds| ==> ds[i] in cs)
  }

  /** Every node that one result has, the other has too, with the same content. */
  lemma SameNode(t: Tree, cs: seq<Collection>, t': Tree, ds: seq<Collection>, p: Elements)
    requires TreeHolds(t, cs) && TreeHolds(t', ds) && SameMembers(cs, ds)
    requires p in t
    ensures p in t' && t'[p] == t[p]
  {
    SameKey(t, cs, t', ds, p);
    if t'[p].collection.Some? {
      assert CollectionOf(cs, p, t[p]) && CollectionOf(ds, p, t'[p]);
    }
  }

  lemma SameKey(t: Tree, cs: seq<Collection>, t': Tree, ds: seq<Collection>, p: Elements)
    requires TreeHolds(t, cs) && TreeHolds(t', ds) && SameMembers(cs, ds)
    requires p in t
    ensures p in t'
  {
    var i :| 0 <= i < |cs| && LeadsTo(p, cs[i]);
    assert cs[i] in ds;
    var j :| 0 <= j < |ds| && ds[j] == cs[i];
    assert CollectionAt(t', ds[j].fullPath.value) == Some(ds[j]);
    PrefixInTree(t', p, ds[j].fullPath.value);
  }

  ghost predicate Submap<K(!new), V>(m: map<K, V>, n: map<K, V>) {
    forall k :: k in m ==> k in n && n[k] == m[k]
  }

  lemma SubmapAntisymmetric<K(!new), V>(m: map<K, V>, n: map<K, V>)
    requires Submap(m, n) && Submap(n, m)
    ensures m == n
  {
  }

  lemma TreeIsSubmap(t: Tree, cs: seq<Collection>, t': Tree, ds: seq<Collection>)
    requires TreeHolds(t, cs) && TreeHolds(t', ds) && SameMembers(cs, ds)
    ensures Submap(t, t')
  {
    forall p | p in t
      ensures p in t' && t'[p] == t[p]
    {
      SameNode(t, cs, t', ds, p);
    }
  }

  lemma SameUpdate(u: Updates, cs: seq<Collection>, u': Updates, ds: seq<Collection>, k: string)
    requires UpdateKeys(u, cs) && UpdateValues(u, cs) && UpdateKeys(u', ds) && UpdateValues(u', ds)
    requires SameMembers(cs, ds) && k in u
    ensures k in u' && u'[k] == u[k]
  {
    var i :| UpdatesAt(cs, i, k);
    assert cs[i] in ds;
    var j :| 0 <= j < |ds| && ds[j] == cs[i];
    assert UpdatesAt(ds, j, k);
  }

  lemma UpdatesAreSubmap(u: Updates, cs: seq<Collection>, u': Updates, ds: seq<Collection>)
    requires UpdateKeys(u, cs) && UpdateValues(u, cs) && UpdateKeys(u', ds) && UpdateValues(u', ds)
    requires SameMembers(cs, ds)
    ensures Submap(u, u')
  {
    forall k | k in u
      ensures k in u' && u'[k] == u[k]
    {
      SameUpdate(u, cs, u', ds, k);
    }
  }

  /** Neither acceptance nor the result depends on the order of the collections. */
  lemma InflateIgnoresOrder(cs: seq<Collection>, ds: seq<Collection>, order: seq<nat>, back: seq<nat>)
    requires forall c :: c in cs ==> c.Typed()
    requires forall c :: c in ds ==> c.Typed()
    requires Reordered(cs, ds, order, back)
    ensures Inflate(cs).Ok? <==> Inflate(ds).Ok?
    ensures Inflate(cs).Ok? ==> Inflate(cs).value == Inflate(ds).value
  {
    ReorderedIsSymmetric(cs, ds, order, back);
    InflateMeans(cs);
    InflateMeans(ds);
    if Consistent(cs) {
      ReorderedKeepsConsistent(cs, ds, order, back);
      var (t, u) := Inflate(cs).value;
      var (t', u') := Inflate(ds).value;
      TreeIsSubmap(t, cs, t', ds);
      TreeIsSubmap(t', ds, t, cs);
      SubmapAntisymmetric(t, t');
      UpdatesAreSubmap(u, cs, u', ds);
      UpdatesAreSubmap(u', ds, u, cs);
      SubmapAntisymmetric(u, u');
    } else if Consistent(ds) {
      ReorderedKeepsConsistent(ds, cs, back, order);
    }
  }
}
