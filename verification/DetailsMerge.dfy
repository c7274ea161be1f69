/**
 `mergeDetails` and `mergeItemsFromBase`: details of items that were not uploaded are taken
 from base backups, and one comparison of counts decides whether they are complete.
 */
module DetailsMerge {
  import opened Wrappers
  import opened PathEscaping
  import opened DataPaths
  import opened BackupBases
  import opened ReasonNames
  import opened MergeDetails

  /** What `ToLocationIDer` makes of an entry. */
  datatype Location = Known(id: Elements) | NoLocation | BadLocation

  datatype Entry = Entry(repoRef: string, modified: int, location: Location)

  /** A base backup; its details may be impossible to fetch. */
  datatype DetailsBase = DetailsBase(reasons: seq<Reason>, details: Option<seq<Entry>>)

  /** An entry put into the new details, and the key of the reference it was matched with. */
  datatype Added = Added(key: string, ref: NewRef, source: Entry)

  datatype Failure =
    | FetchingDetails
    | ParsingRepoRef(path: DataPathError)
    | UnusableLocation
    | NewPath(ref: RefError)
    | AddingItem
    | IncompleteMigration

  /** `FromDataLayerPath` for items. */
  function ParseRepoRef(repoRef: string): Result<DataPath, DataPathError> {
    FromDataLayer(repoRef, true, 5)
  }

  /**
   What the merge reads.  `parse` reads a RepoRef, in the source as `ParseRepoRef`;
   `refuses` says which items the details builder rejects.
   */
  datatype Env = Env(
    parse: string -> Result<DataPath, DataPathError>,
    refs: map<string, PrevRef>,
    shortRef: Elements -> string,
    relocate: Elements -> Elements,
    refuses: NewRef -> bool)

  predicate MatchesReason(reasons: seq<Reason>, p: DataPath) {
    exists r :: r in reasons && SameSubtree(r, p)
  }

  predicate SameSubtree(r: Reason, p: DataPath) {
    && |p.elements| > 2 && p.service.IsResource()
    && r.resource == p.elements[2] && r.service == p.service.Name() && r.category == p.category.Name()
  }

  /** An entry on offer, and whether its base's reasons restrict it. */
  datatype Offer = Offer(checkReason: bool, reasons: seq<Reason>, entry: Entry)

  function OffersOf(checkReason: bool, reasons: seq<Reason>, entries: seq<Entry>): seq<Offer> {
    seq(|entries|, i requires 0 <= i < |entries| => Offer(checkReason, reasons, entries[i]))
  }

  /**
   The path with these elements lies in the subtree of the reason: behind the tenant come its
   service, its resource and its category.  Services and categories are read in any case.
   */
  ghost predicate LiesIn(es: Elements, r: Reason) {
    && |es| > 3 && es[2] == r.resource
    && Lower(es[1]) == Lower(r.service) && Lower(es[3]) == Lower(r.category)
    && exists s, c :: RealKind(r, s, c)
  }

  ghost predicate LiesInSome(es: Elements, reasons: seq<Reason>) {
    exists r :: r in reasons && LiesIn(es, r)
  }

  /** What `ParseRepoRef` guarantees. */
  ghost predicate ParsesPaths(env: Env) {
    forall ref :: env.parse(ref).Ok? ==> env.parse(ref).value.Valid(5)
  }

  lemma KindRead(x: string, y: string, r: Reason, s: ServiceType, c: CategoryType)
    requires RealKind(r, s, c)
    ensures Lower(x) == Lower(r.service) && Lower(y) == Lower(r.category) <==>
      ToServiceType(x) == s && ToCategoryType(y) == c
  {
    ServiceOf(x, s);
    CategoryOf(y, c);
  }

  lemma SameSubtreeMeans(r: Reason, p: DataPath)
    requires p.Valid(5)
    ensures SameSubtree(r, p) <==> LiesIn(p.elements, r)
  {
    var es := p.elements;
    if SameSubtree(r, p) {
      assert RealKind(r, p.service, p.category);
      KindRead(es[1], es[3], r, p.service, p.category);
    }
    if LiesIn(es, r) {
      var s, c :| RealKind(r, s, c);
      KindRead(es[1], es[3], r, s, c);
    }
  }

  /** The reason test holds of a parsed path exactly if it lies in the subtree of one of the reasons. */
  lemma MatchesReasonMeans(reasons: seq<Reason>, p: DataPath)
    requires p.Valid(5)
    ensures MatchesReason(reasons, p) <==> LiesInSome(p.elements, reasons)
  {
    forall r | r in reasons
      ensures SameSubtree(r, p) <==> LiesIn(p.elements, r)
    {
      SameSubtreeMeans(r, p);
    }
  }

  /** `e` is an entry for the item registered under `key`, of the registered version. */
  ghost predicate Fits(env: Env, o: Offer, key: string) {
    && env.parse(o.entry.repoRef).Ok?
    && var path := env.parse(o.entry.repoRef).value.elements;
    && (o.checkReason ==> LiesInSome(path, o.reasons))
    && env.shortRef(path) == key
    && key in env.refs && (env.refs[key].modTime == None || env.refs[key].modTime == Some(o.entry.modified))
  }

  // ---------------------------------------------------------------------------
  // The merge as a fold over all offers
  // ---------------------------------------------------------------------------

  datatype Tally = Tally(seen: set<string>, added: seq<Added>)

  const NOTHING := Tally({}, [])

  function Consider(env: Env, t: Tally, o: Offer): Result<Tally, Failure> {
    match env.parse(o.entry.repoRef)
    case Err(e) => Err(ParsingRepoRef(e))
    case Ok(rr) =>
      var key := env.shortRef(rr.elements);
      if o.checkReason && !MatchesReason(o.reasons, rr) then Ok(t)
      else if key in t.seen then Ok(t)
      else if !o.entry.location.Known? then Err(UnusableLocation)
      else
        match NewPathRefs(env.refs, key, o.entry.modified, Some(o.entry.location.id), env.relocate)
        case Err(e) => Err(NewPath(e))
        case Ok(None) => Ok(t)
        case Ok(Some(n)) =>
          if env.refuses(n) then Err(AddingItem) else Ok(Tally(t.seen + {key}, t.added + [Added(key, n, o.entry)]))
  }

  function ConsiderAll(env: Env, t: Tally, offers: seq<Offer>): Result<Tally, Failure> {
    if offers == [] then Ok(t)
    else
      var t1 :- ConsiderAll(env, t, offers[..|offers| - 1]);
      Consider(env, t1, offers[|offers| - 1])
  }

  function ConsiderBase(env: Env, t: Tally, checkReason: bool, base: DetailsBase): Result<Tally, Failure> {
    match base.details
    case None => Err(FetchingDetails)
    case Some(entries) => ConsiderAll(env, t, OffersOf(checkReason, base.reasons, entries))
  }

  function ConsiderBases(env: Env, t: Tally, checkReason: bool, bases: seq<DetailsBase>): Result<Tally, Failure> {
    if bases == [] then Ok(t)
    else
      var t1 :- ConsiderBases(env, t, checkReason, bases[..|bases| - 1]);
      ConsiderBase(env, t1, checkReason, bases[|bases| - 1])
  }

  function MergeAll(env: Env, assists: seq<DetailsBase>, merges: seq<DetailsBase>): Result<Tally, Failure> {
    var t :- ConsiderBases(env, NOTHING, false, assists);
    ConsiderBases(env, t, true, merges)
  }

  // ---------------------------------------------------------------------------
  // What was on offer
  // ---------------------------------------------------------------------------

  function OffersOfAll(checkReason: bool, bases: seq<DetailsBase>): seq<Offer> {
    if bases == [] then []
    else
      var base := bases[|bases| - 1];
      OffersOfAll(checkReason, bases[..|bases| - 1])
      + if base.details.Some? then OffersOf(checkReason, base.reasons, base.details.value) else []
  }

  function AllOffers(assists: seq<DetailsBase>, merges: seq<DetailsBase>): seq<Offer> {
    OffersOfAll(false, assists) + OffersOfAll(true, merges)
  }

  lemma {:induction false} ConsiderAppend(env: Env, t: Tally, a: seq<Offer>, b: seq<Offer>)
    ensures ConsiderAll(env, t, a + b) ==
      match ConsiderAll(env, t, a)
      case Ok(t1) => ConsiderAll(env, t1, b)
      case Err(e) => Err(e)
  {
    if b == [] {
      assert a + b == a;
    } else {
      ConsiderAppend(env, t, a, b[..|b| - 1]);
      assert (a + b)[..|a + b| - 1] == a + b[..|b| - 1];
    }
  }

  lemma {:induction false} BasesAreOffers(env: Env, t: Tally, checkReason: bool, bases: seq<DetailsBase>)
    ensures ConsiderBases(env, t, checkReason, bases).Ok? ==>
      ConsiderAll(env, t, OffersOfAll(checkReason, bases)) == ConsiderBases(env, t, checkReason, bases)
  {
    if bases != [] && ConsiderBases(env, t, checkReason, bases).Ok? {
      var init, base := bases[..|bases| - 1], bases[|bases| - 1];
      BasesAreOffers(env, t, checkReason, init);
      ConsiderAppend(env, t, OffersOfAll(checkReason, init), OffersOf(checkReason, base.reasons, base.details.value));
    }
  }

  lemma MergeIsOffers(env: Env, assists: seq<DetailsBase>, merges: seq<DetailsBase>)
    requires MergeAll(env, assists, merges).Ok?
    ensures ConsiderAll(env, NOTHING, AllOffers(assists, merges)) == MergeAll(env, assists, merges)
  {
    BasesAreOffers(env, NOTHING, false, assists);
    BasesAreOffers(env, ConsiderBases(env, NOTHING, false, assists).value, true, merges);
    ConsiderAppend(env, NOTHING, OffersOfAll(false, assists), OffersOfAll(true, merges));
  }

  // ---------------------------------------------------------------------------
  // The count is a sound and complete check
  // ---------------------------------------------------------------------------

  ghost predicate Offered(env: Env, offers: seq<Offer>, key: string) {
    exists i :: 0 <= i < |offers| && Fits(env, offers[i], key)
  }

  /** Every addition is for a registered reference, from an entry that fits, with that reference's new path. */
  ghost predicate AddedRightly(env: Env, offers: seq<Offer>, a: Added) {
    && a.key in env.refs && HasNewPath(env, a.key, a.ref, a.source)
    && exists i :: 0 <= i < |offers| && offers[i].entry == a.source && Fits(env, offers[i], a.key)
  }

  /** The recorded path, and the recorded location or else the relocated one of the entry. */
  ghost predicate HasNewPath(env: Env, key: string, n: NewRef, source: Entry)
    requires key in env.refs
  {
    && n.repoRef == env.refs[key].repoRef
    && match env.refs[key].locRef
       case Some(location) => n.location == location
       case None => source.location.Known? && n.location == env.relocate(source.location.id)
  }

  ghost predicate TallyHolds(env: Env, offers: seq<Offer>, t: Tally) {
    && (forall k :: k in t.seen <==> Offered(env, offers, k))
    && (forall i :: 0 <= i < |t.added| ==> AddedRightly(env, offers, t.added[i]) && t.added[i].key in t.seen)
    && (forall i, j :: 0 <= i < j < |t.added| ==> t.added[i].key != t.added[j].key)
    && |t.added| == |t.seen|
  }

  lemma OfferedSnoc(env: Env, offers: seq<Offer>, o: Offer, k: string)
    ensures Offered(env, offers + [o], k) <==> Offered(env, offers, k) || Fits(env, o, k)
  {
    var all := offers + [o];
    assert all[|offers|] == o;
    if i :| 0 <= i < |offers| && Fits(env, offers[i], k) {
      assert all[i] == offers[i];
    }
  }

  lemma AddedStays(env: Env, offers: seq<Offer>, o: Offer, a: Added)
    requires AddedRightly(env, offers, a)
    ensures AddedRightly(env, offers + [o], a)
  {
    var i :| 0 <= i < |offers| && offers[i].entry == a.source && Fits(env, offers[i], a.key);
    assert (offers + [o])[i] == offers[i];
  }

  /** The reference an offer is for, if it fits one that is not seen yet. */
  ghost predicate TakesUp(env: Env, t: Tally, o: Offer, k: string) {
    k !in t.seen && Fits(env, o, k)
  }

  /** An offer changes the tally exactly if it fits a reference that is not seen yet. */
  lemma ConsiderMeans(env: Env, t: Tally, o: Offer, k: string)
    requires ParsesPaths(env) && Consider(env, t, o).Ok?
    ensures TakesUp(env, t, o, k) ==>
      exists n: NewRef :: HasNewPath(env, k, n, o.entry)
        && Consider(env, t, o).value == Tally(t.seen + {k}, t.added + [Added(k, n, o.entry)])
    ensures Consider(env, t, o).value == t || exists x :: TakesUp(env, t, o, x)
    ensures TakesUp(env, t, o, k) ==> forall x :: Fits(env, o, x) ==> x == k
  {
    var rr := env.parse(o.entry.repoRef).value;
    var key := env.shortRef(rr.elements);
    MatchesReasonMeans(o.reasons, rr);
    assert Consider(env, t, o).value != t ==> TakesUp(env, t, o, key);
  }

  lemma TakeKeeps(env: Env, offers: seq<Offer>, t: Tally, o: Offer, k: string, n: NewRef)
    requires TallyHolds(env, offers, t) && TakesUp(env, t, o, k) && HasNewPath(env, k, n, o.entry)
    requires forall x :: Fits(env, o, x) ==> x == k
    ensures TallyHolds(env, offers + [o], Tally(t.seen + {k}, t.added + [Added(k, n, o.entry)]))
  {
    forall x
      ensures Offered(env, offers + [o], x) <==> Offered(env, offers, x) || Fits(env, o, x)
    {
      OfferedSnoc(env, offers, o, x);
    }
    forall i | 0 <= i < |t.added|
      ensures AddedRightly(env, offers + [o], t.added[i])
    {
      AddedStays(env, offers, o, t.added[i]);
    }
    assert (offers + [o])[|offers|] == o;
    assert AddedRightly(env, offers + [o], Added(k, n, o.entry));
  }

  lemma PassKeeps(env: Env, offers: seq<Offer>, t: Tally, o: Offer)
    requires TallyHolds(env, offers, t) && forall k :: !TakesUp(env, t, o, k)
    ensures TallyHolds(env, offers + [o], t)
  {
    forall k
      ensures Offered(env, offers + [o], k) <==> Offered(env, offers, k)
    {
      OfferedSnoc(env, offers, o, k);
      assert !TakesUp(env, t, o, k);
    }
    forall i | 0 <= i < |t.added|
      ensures AddedRightly(env, offers + [o], t.added[i])
    {
      AddedStays(env, offers, o, t.added[i]);
    }
  }

  lemma ConsiderKeeps(env: Env, offers: seq<Offer>, t: Tally, o: Offer)
    requires ParsesPaths(env) && TallyHolds(env, offers, t) && Consider(env, t, o).Ok?
    ensures TallyHolds(env, offers + [o], Consider(env, t, o).value)
  {
    if k :| TakesUp(env, t, o, k) {
      ConsiderMeans(env, t, o, k);
      var n: NewRef :| HasNewPath(env, k, n, o.entry)
        && Consider(env, t, o).value == Tally(t.seen + {k}, t.added + [Added(k, n, o.entry)]);
      TakeKeeps(env, offers, t, o, k, n);
    } else {
      ConsiderMeans(env, t, o, "");
      PassKeeps(env, offers, t, o);
    }
  }

  lemma {:induction false} TallyOfAll(env: Env, offers: seq<Offer>)
    requires ParsesPaths(env) && ConsiderAll(env, NOTHING, offers).Ok?
    ensures TallyHolds(env, offers, ConsiderAll(env, NOTHING, offers).value)
  {
    if offers != [] {
      var init, o := offers[..|offers| - 1], offers[|offers| - 1];
      TallyOfAll(env, init);
      assert init + [o] == offers;
      ConsiderKeeps(env, init, ConsiderAll(env, NOTHING, init).value, o);
    }
  }

  lemma SubsetCount<T>(a: set<T>, b: set<T>)
    requires a <= b
    ensures |a| <= |b| && (|a| == |b| <==> a == b)
  {
    assert b == a + (b - a) && a !! (b - a);
  }

  /** Each registered reference was matched, once, by an entry that fits it. */
  ghost predicate EachMatchedOnce(env: Env, offers: seq<Offer>, added: seq<Added>) {
    && (forall k :: k in env.refs ==> exists i :: 0 <= i < |added| && added[i].key == k)
    && (forall i :: 0 <= i < |added| ==> AddedRightly(env, offers, added[i]))
    && (forall i, j :: 0 <= i < j < |added| ==> added[i].key != added[j].key)
  }

  lemma {:induction false} KeysOfAdded(added: seq<Added>, seen: set<string>)
    requires forall i :: 0 <= i < |added| ==> added[i].key in seen
    requires forall i, j :: 0 <= i < j < |added| ==> added[i].key != added[j].key
    ensures |added| <= |seen|
    ensures |added| == |seen| ==> forall k :: k in seen ==> exists i :: 0 <= i < |added| && added[i].key == k
    decreases |added|
  {
    if added == [] {
      assert |seen| == 0 ==> seen == {};
    } else {
      var init, last := added[..|added| - 1], added[|added| - 1];
      var rest := seen - {last.key};
      assert seen == rest + {last.key} && |seen| == |rest| + 1;
      KeysOfAdded(init, rest);
      forall k | k in seen && |added| == |seen|
        ensures exists i :: 0 <= i < |added| && added[i].key == k
      {
        if k == last.key {
          assert added[|added| - 1].key == k;
        } else {
          var i :| 0 <= i < |init| && init[i].key == k;
          assert added[i].key == k;
        }
      }
    }
  }

  /** What is on offer: all entries of assist bases, and those of merge bases, within their reasons. */
  lemma OffersAre(assists: seq<DetailsBase>, merges: seq<DetailsBase>, o: Offer)
    ensures o in AllOffers(assists, merges) <==>
      exists b :: b in (if o.checkReason then merges else assists) && Offers(b, o)
  {
    OffersOfAllAre(false, assists, o);
    OffersOfAllAre(true, merges, o);
  }

  ghost predicate Offers(b: DetailsBase, o: Offer) {
    o.reasons == b.reasons && b.details.Some? && o.entry in b.details.value
  }

  lemma {:induction false} OffersOfAllAre(checkReason: bool, bases: seq<DetailsBase>, o: Offer)
    ensures o in OffersOfAll(checkReason, bases) <==>
      o.checkReason == checkReason && exists b :: b in bases && Offers(b, o)
  {
    if bases != [] {
      var init, base := bases[..|bases| - 1], bases[|bases| - 1];
      OffersOfAllAre(checkReason, init, o);
      assert bases == init + [base];
      if base.details.Some? {
        OffersOfAre(checkReason, base, o);
      }
    }
  }

  lemma OffersOfAre(checkReason: bool, b: DetailsBase, o: Offer)
    requires b.details.Some?
    ensures o in OffersOf(checkReason, b.reasons, b.details.value) <==> o.checkReason == checkReason && Offers(b, o)
  {
    var entries := b.details.value;
    var offers := OffersOf(checkReason, b.reasons, entries);
    if o.checkReason == checkReason && Offers(b, o) {
      var i :| 0 <= i < |entries| && entries[i] == o.entry;
      assert offers[i] == o;
    }
  }

  /**
   A registered item is matched if a merge base has an entry for it of the recorded version,
   in the subtree of one of the base's reasons, or an assist base has one anywhere.
   */
  lemma RegisteredIsMatched(env: Env, assists: seq<DetailsBase>, merges: seq<DetailsBase>, base: DetailsBase,
                            entry: Entry, key: string)
    requires ParsesPaths(env) && MergeAll(env, assists, merges).Ok?
    requires base.details.Some? && entry in base.details.value && env.parse(entry.repoRef).Ok?
    requires base in assists || (base in merges && LiesInSome(env.parse(entry.repoRef).value.elements, base.reasons))
    requires key in env.refs && key == env.shortRef(env.parse(entry.repoRef).value.elements)
    requires env.refs[key].modTime == None || env.refs[key].modTime == Some(entry.modified)
    ensures Matched(MergeAll(env, assists, merges).value.added, key)
  {
    var offers, t := AllOffers(assists, merges), MergeAll(env, assists, merges).value;
    var o := Offer(base !in assists, base.reasons, entry);
    assert Offers(base, o) && base in (if o.checkReason then merges else assists);
    OffersAre(assists, merges, o);
    assert Fits(env, o, key);
    MergeIsOffers(env, assists, merges);
    TallyOfAll(env, offers);
    OfferedIsMatched(env, offers, t, o, key);
  }

  ghost predicate Matched(added: seq<Added>, key: string) {
    exists i :: 0 <= i < |added| && added[i].key == key
  }

  lemma OfferedIsMatched(env: Env, offers: seq<Offer>, t: Tally, o: Offer, key: string)
    requires TallyHolds(env, offers, t) && o in offers && Fits(env, o, key)
    ensures Matched(t.added, key)
  {
    var i :| 0 <= i < |offers| && offers[i] == o;
    assert Offered(env, offers, key);
    KeysOfAdded(t.added, t.seen);
  }

  lemma AddedAreRight(env: Env, assists: seq<DetailsBase>, merges: seq<DetailsBase>, i: nat)
    requires ParsesPaths(env) && MergeAll(env, assists, merges).Ok? && i < |MergeAll(env, assists, merges).value.added|
    ensures AddedRightly(env, AllOffers(assists, merges), MergeAll(env, assists, merges).value.added[i])
  {
    MergeIsOffers(env, assists, merges);
    TallyOfAll(env, AllOffers(assists, merges));
  }

  /**
   The count check.  Additions never exceed the items to merge, and are as many exactly
   if every registered reference was offered; then each was matched once, and only by an
   entry of the recorded version.
   */
  lemma CountCheckIsExact(env: Env, assists: seq<DetailsBase>, merges: seq<DetailsBase>)
    requires ParsesPaths(env) && MergeAll(env, assists, merges).Ok?
    ensures var added, offers := MergeAll(env, assists, merges).value.added, AllOffers(assists, merges);
      && |added| <= |env.refs|
      && (|added| == |env.refs| <==> forall k :: k in env.refs ==> Offered(env, offers, k))
      && (|added| == |env.refs| <==> EachMatchedOnce(env, offers, added))
  {
    var t, offers := MergeAll(env, assists, merges).value, AllOffers(assists, merges);
    MergeIsOffers(env, assists, merges);
    TallyOfAll(env, offers);
    SubsetCount(t.seen, env.refs.Keys);
    KeysOfAdded(t.added, t.seen);
    assert |env.refs| == |env.refs.Keys|;
  }

  // ---------------------------------------------------------------------------
  // The loops
  // ---------------------------------------------------------------------------

  /** The details builder, as far as the merge adds to it. */
  class DetailsBuilder {
    const refuses: NewRef -> bool
    var merged: seq<Added>

    constructor (refuses: NewRef -> bool)
      ensures this.refuses == refuses && merged == []
    {
      this.refuses, merged := refuses, [];
    }

    method Add(a: Added) returns (ok: bool)
      modifies this`merged
      ensures ok == !refuses(a.ref) && merged == old(merged) + [a]
    {
      merged := merged + [a];
      ok := !refuses(a.ref);
    }
  }

  ghost function EnvOf(m: Merger, deets: DetailsBuilder): Env
    reads m
  {
    Env(ParseRepoRef, m.repoRefs, m.shortRef, m.relocate, deets.refuses)
  }

  lemma ParsesRepoRefs(m: Merger, deets: DetailsBuilder)
    ensures ParsesPaths(EnvOf(m, deets))
  {
    forall ref | ParseRepoRef(ref).Ok?
      ensures ParseRepoRef(ref).value.Valid(5)
    {
      ParsedIsValid(ref, true, 5);
    }
  }

  /** An item's path is read back from its printed form, if something is behind the prefix. */
  lemma ItemRefIsRead(p: DataPath)
    requires p.Valid(5) && p.hasItem
    ensures ParseRepoRef(Print(p.elements)) == Ok(p)
  {
    DataPathRoundTrip(p, 5);
  }

  /**
   An entry stops the merge if its path cannot be read; or if it is within the reasons, and
   not seen, and its location cannot be told, or it is of the recorded version of a
   registered item without a new location and has none itself, or the details refuse it.
   */
  ghost predicate Stops(env: Env, seen: set<string>, o: Offer) {
    env.parse(o.entry.repoRef).Ok? ==>
      var path := env.parse(o.entry.repoRef).value.elements;
      var key := env.shortRef(path);
      && (o.checkReason ==> LiesInSome(path, o.reasons)) && key !in seen
      && (o.entry.location.Known? && Fits(env, o, key) ==>
            || (env.refs[key].locRef == None && o.entry.location.id == [])
            || (exists n :: HasNewPath(env, key, n, o.entry) && env.refuses(n)))
      && (o.entry.location.Known? ==> Fits(env, o, key))
  }

  lemma StopsIff(env: Env, t: Tally, o: Offer)
    requires ParsesPaths(env)
    ensures Consider(env, t, o).Err? <==> Stops(env, t.seen, o)
  {
    if env.parse(o.entry.repoRef).Ok? {
      var rr := env.parse(o.entry.repoRef).value;
      var key := env.shortRef(rr.elements);
      MatchesReasonMeans(o.reasons, rr);
      if o.entry.location.Known? && Fits(env, o, key) {
        var found := NewPathRefs(env.refs, key, o.entry.modified, Some(o.entry.location.id), env.relocate);
        assert found.Ok? ==> HasNewPath(env, key, found.value.value, o.entry);
        assert found.Ok? ==> forall n :: HasNewPath(env, key, n, o.entry) ==> n == found.value.value;
      }
    }
  }

  lemma ConsiderStep(env: Env, t: Tally, offers: seq<Offer>, i: nat)
    requires i < |offers|
    ensures ConsiderAll(env, t, offers[..i]).Ok? ==>
      ConsiderAll(env, t, offers[..i + 1]) == Consider(env, ConsiderAll(env, t, offers[..i]).value, offers[i])
    ensures ConsiderAll(env, t, offers[..i]).Err? ==>
      ConsiderAll(env, t, offers[..i + 1]) == ConsiderAll(env, t, offers[..i])
  {
    assert offers[..i + 1][..i] == offers[..i];
  }

  lemma {:induction false} ConsiderStops(env: Env, t: Tally, offers: seq<Offer>, i: nat)
    requires i <= |offers| && ConsiderAll(env, t, offers[..i]).Err?
    ensures ConsiderAll(env, t, offers) == ConsiderAll(env, t, offers[..i])
    decreases |offers| - i
  {
    if i == |offers| {
      assert offers[..i] == offers;
    } else {
      ConsiderStep(env, t, offers, i);
      ConsiderStops(env, t, offers, i + 1);
    }
  }

  /** One entry: skipped, added, or a reason to give up. */
  method MergeEntry(o: Offer, m: Merger, deets: DetailsBuilder, alreadySeenItems: set<string>)
    returns (seen: set<string>, added: nat, err: Option<Failure>)
    modifies deets
    ensures err.None? ==>
      Consider(EnvOf(m, deets), Tally(alreadySeenItems, old(deets.merged)), o) == Ok(Tally(seen, deets.merged))
    ensures err.None? ==> |deets.merged| == |old(deets.merged)| + added
    ensures err.None? ==> (added > 0 <==> exists k :: k !in alreadySeenItems && Fits(EnvOf(m, deets), o, k))
    ensures err.Some? ==> Consider(EnvOf(m, deets), Tally(alreadySeenItems, old(deets.merged)), o) == Err(err.value)
  {
    seen, added, err := alreadySeenItems, 0, None;
    ParsesRepoRefs(m, deets);
    var rr := ParseRepoRef(o.entry.repoRef);
    if rr.Ok? {
      MatchesReasonMeans(o.reasons, rr.value);
    }
    if rr.Err? {
      err := Some(ParsingRepoRef(rr.error));
      return;
    }
    if o.checkReason && !MatchesReason(o.reasons, rr.value) {
      return;
    }
    var key := m.shortRef(rr.value.elements);
    if key in alreadySeenItems {
      return;
    }
    if !o.entry.location.Known? {
      err := Some(UnusableLocation);
      return;
    }
    var found := m.GetNewPathRefs(rr.value.elements, o.entry.modified, Some(o.entry.location.id));
    if found.Err? {
      err := Some(NewPath(found.error));
      return;
    }
    if found.value.None? {
      return;
    }
    var ok := deets.Add(Added(key, found.value.value, o.entry));
    if !ok {
      err := Some(AddingItem);
      return;
    }
    seen, added := alreadySeenItems + {key}, 1;
  }

  method MergeItemsFromBase(checkReason: bool, base: DetailsBase, m: Merger, deets: DetailsBuilder,
                            alreadySeenItems: set<string>)
    returns (manifestAddedEntries: nat, seen: set<string>, err: Option<Failure>)
    modifies deets
    ensures err.None? ==>
      && ConsiderBase(EnvOf(m, deets), Tally(alreadySeenItems, old(deets.merged)), checkReason, base) ==
         Ok(Tally(seen, deets.merged))
      && |deets.merged| == |old(deets.merged)| + manifestAddedEntries
    ensures err.Some? ==>
      ConsiderBase(EnvOf(m, deets), Tally(alreadySeenItems, old(deets.merged)), checkReason, base) == Err(err.value)
  {
    manifestAddedEntries, seen, err := 0, alreadySeenItems, None;
    if base.details.None? {
      err := Some(FetchingDetails);
      return;
    }
    var entries := base.details.value;
    ghost var env, start := EnvOf(m, deets), Tally(alreadySeenItems, deets.merged);
    ghost var offers := OffersOf(checkReason, base.reasons, entries);
    for i := 0 to |entries|
      invariant env == EnvOf(m, deets) && err.None?
      invariant ConsiderAll(env, start, offers[..i]) == Ok(Tally(seen, deets.merged))
      invariant |deets.merged| == |start.added| + manifestAddedEntries
    {
      ConsiderStep(env, start, offers, i);
      var added;
      seen, added, err := MergeEntry(Offer(checkReason, base.reasons, entries[i]), m, deets, seen);
      if err.Some? {
        ConsiderStops(env, start, offers, i + 1);
        return;
      }
      manifestAddedEntries := manifestAddedEntries + added;
    }
    assert offers[..|entries|] == offers;
  }

  lemma BasesStep(env: Env, t: Tally, checkReason: bool, bases: seq<DetailsBase>, i: nat)
    requires i < |bases|
    ensures ConsiderBases(env, t, checkReason, bases[..i]).Ok? ==>
      ConsiderBases(env, t, checkReason, bases[..i + 1])
      == ConsiderBase(env, ConsiderBases(env, t, checkReason, bases[..i]).value, checkReason, bases[i])
    ensures ConsiderBases(env, t, checkReason, bases[..i]).Err? ==>
      ConsiderBases(env, t, checkReason, bases[..i + 1]) == ConsiderBases(env, t, checkReason, bases[..i])
  {
    assert bases[..i + 1][..i] == bases[..i];
  }

  lemma {:induction false} BasesStop(env: Env, t: Tally, checkReason: bool, bases: seq<DetailsBase>, i: nat)
    requires i <= |bases| && ConsiderBases(env, t, checkReason, bases[..i]).Err?
    ensures ConsiderBases(env, t, checkReason, bases) == ConsiderBases(env, t, checkReason, bases[..i])
    decreases |bases| - i
  {
    if i == |bases| {
      assert bases[..i] == bases;
    } else {
      BasesStep(env, t, checkReason, bases, i);
      BasesStop(env, t, checkReason, bases, i + 1);
    }
  }

  /** The loop over the bases of one kind. */
  method MergeBaseItems(checkReason: bool, bases: seq<DetailsBase>, m: Merger, deets: DetailsBuilder,
                        alreadySeenEntries: set<string>)
    returns (addedEntries: nat, seen: set<string>, err: Option<Failure>)
    modifies deets
    ensures err.None? ==>
      && ConsiderBases(EnvOf(m, deets), Tally(alreadySeenEntries, old(deets.merged)), checkReason, bases) ==
         Ok(Tally(seen, deets.merged))
      && |deets.merged| == |old(deets.merged)| + addedEntries
    ensures err.Some? ==>
      ConsiderBases(EnvOf(m, deets), Tally(alreadySeenEntries, old(deets.merged)), checkReason, bases) == Err(err.value)
  {
    addedEntries, seen, err := 0, alreadySeenEntries, None;
    ghost var env, start := EnvOf(m, deets), Tally(alreadySeenEntries, deets.merged);
    for i := 0 to |bases|
      invariant env == EnvOf(m, deets) && err.None?
      invariant ConsiderBases(env, start, checkReason, bases[..i]) == Ok(Tally(seen, deets.merged))
      invariant |deets.merged| == |start.added| + addedEntries
    {
      BasesStep(env, start, checkReason, bases, i);
      var added;
      added, seen, err := MergeItemsFromBase(checkReason, bases[i], m, deets, seen);
      if err.Some? {
        BasesStop(env, start, checkReason, bases, i + 1);
        return;
      }
      addedEntries := addedEntries + added;
    }
    assert bases[..|bases|] == bases;
  }

  /**
   Assist bases first, whatever their reasons, then merge bases within theirs.  Unless an
   entry stops it, the merge fails exactly if some registered item was not matched; each
   item is matched at most once, and only by an entry of the recorded version.
   */
  method MergeDetailsOf(assistBases: seq<DetailsBase>, mergeBases: seq<DetailsBase>, m: Merger?, deets: DetailsBuilder)
    returns (err: Option<Failure>)
    requires deets.merged == []
    modifies deets
    ensures m == null || m.ItemsToMerge() == 0 ==> err.None? && deets.merged == []
    ensures m != null && m.ItemsToMerge() > 0 ==>
      match MergeAll(EnvOf(m, deets), assistBases, mergeBases)
      case Err(e) => err == Some(e)
      case Ok(t) =>
        && deets.merged == t.added
        && (err.None? <==> EachMatchedOnce(EnvOf(m, deets), AllOffers(assistBases, mergeBases), deets.merged))
        && (err.Some? ==> err.value.IncompleteMigration?)
  {
    if m == null || m.ItemsToMerge() == 0 {
      return None;
    }
    var fromAssist, seen, fromMerge;
    fromAssist, seen, err := MergeBaseItems(false, assistBases, m, deets, {});
    if err.Some? {
      return;
    }
    fromMerge, seen, err := MergeBaseItems(true, mergeBases, m, deets, seen);
    if err.Some? {
      return;
    }
    ParsesRepoRefs(m, deets);
    CountCheckIsExact(EnvOf(m, deets), assistBases, mergeBases);
    if fromAssist + fromMerge != m.ItemsToMerge() {
      err := Some(IncompleteMigration);
    }
  }

  // ---------------------------------------------------------------------------
  // Short references
  // ---------------------------------------------------------------------------

  /**
   What an entry that fits a reference has to do with the path that was registered: even
   with a perfect hash, only that their elements run together alike.  It is that path
   exactly if the boundaries between elements are the same.
   */
  lemma FitMeansSameJoined(hash: string -> string, env: Env, o: Offer, key: string, oldRef: Elements)
    requires forall a, b :: hash(a) == hash(b) ==> a == b
    requires forall a :: hash(a) != ""
    requires forall p :: env.shortRef(p) == ShortRef(hash, p)
    requires Fits(env, o, key) && env.shortRef(oldRef) == key
    ensures var path := env.parse(o.entry.repoRef).value.elements;
      && Joined(path) == Joined(oldRef)
      && (path == oldRef <==> |path| == |oldRef| && forall i :: 0 <= i < |path| ==> |path[i]| == |oldRef[i]|)
  {
    var path := env.parse(o.entry.repoRef).value.elements;
    ShortRefsAgreeIff(hash, path, oldRef);
    if |path| == |oldRef| && forall i :: 0 <= i < |path| ==> |path[i]| == |oldRef[i]| {
      JoinedSameBoundaries(path, oldRef);
    }
  }
}
