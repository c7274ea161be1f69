/**
 The callbacks of `corsoProgress`: files handed to kopia are pending until kopia reports
 them finished, and then land in the new details, in the list to merge, or nowhere.
 */
module Progress {
  import opened Wrappers
  import opened PathEscaping
  import opened MergeDetails

  /** The relative path kopia reports back: the item path without its first element. */
  type Key = Elements

  /** `itemDetails`: what the tracker is told about a file when it is handed out. */
  datatype ItemDetails = ItemDetails(
    infoer: bool,
    repoPath: Elements,
    prevPath: Option<Elements>,
    locationPath: Option<Elements>,
    cached: bool,
    modTime: int)

  datatype Put = Put(key: Key, details: ItemDetails)

  function KeyOf(repoPath: Elements): Key {
    if repoPath == [] then [] else repoPath[1..]
  }

  const ZERO_TIME := 0

  /** What an item says about itself when it is finished. */
  datatype Info = Modified(time: int) | NotFound | InfoFails

  datatype DeetsEntry = DeetsEntry(repoRef: Elements, location: Elements, modified: int)

  datatype State = State(
    pending: map<Key, ItemDetails>,
    deets: seq<DeetsEntry>,
    refs: map<string, PrevRef>,
    errors: nat,
    expectedIgnored: nat)

  /** Where a file went; `Unrecorded` is always accompanied by an error. */
  datatype Landing = InDeets | InMerge | UploadFailed | GoneInFlight | Unrecorded

  /** `noFolder` says for which entries the details builder fails after adding them. */
  datatype Env = Env(shortRef: Elements -> string, noFolder: DeetsEntry -> bool)

  /** `FinishedFile` for an item that is pending, once it is taken off the pending list. */
  function Land(env: Env, s: State, d: ItemDetails, failed: bool, info: Info): (State, Landing) {
    if failed then (s, UploadFailed)
    else if !d.infoer || d.cached then
      if d.prevPath.None? || env.shortRef(d.prevPath.value) in s.refs then (s.(errors := s.errors + 1), Unrecorded)
      else
        (s.(refs := s.refs[env.shortRef(d.prevPath.value) := PrevRef(d.repoPath, d.locationPath, Some(d.modTime))]),
            InMerge)
    else
      match info
      case NotFound => (s, GoneInFlight)
      case InfoFails => (s.(errors := s.errors + 1), Unrecorded)
      case Modified(t) =>
        if t != d.modTime then (s.(errors := s.errors + 1), Unrecorded)
        else
          var zero := if t == ZERO_TIME then 1 else 0;
          if d.locationPath.None? then (s.(errors := s.errors + zero + 1), Unrecorded)
          else
            var entry := DeetsEntry(d.repoPath, d.locationPath.value, t);
            (s.(deets := s.deets + [entry], errors := s.errors + zero + if env.noFolder(entry) then 1 else 0), InDeets)
  }

  datatype Event =
    | PutFile(put: Put)
    | CachedFile(key: Key)
    | FinishedFile(key: Key, failed: bool, info: Info)
    | KopiaError(skippable: bool)

  /** The state, what was put, and where finished files landed. */
  datatype Run = Run(s: State, put: map<Key, ItemDetails>, landed: map<Key, Landing>)

  const START := Run(State(map[], [], map[], 0, 0), map[], map[])

  function Without(m: map<Key, ItemDetails>, k: Key): map<Key, ItemDetails> {
    m - {k}
  }

  function Next(env: Env, r: Run, e: Event): Run {
    match e
    case PutFile(p) => r.(s := r.s.(pending := r.s.pending[p.key := p.details]), put := r.put[p.key := p.details])
    case CachedFile(k) =>
      if k in r.s.pending then r.(s := r.s.(pending := r.s.pending[k := r.s.pending[k].(cached := true)])) else r
    case FinishedFile(k, failed, info) =>
      if k !in r.s.pending then r
      else
        var (s, l) := Land(env, r.s.(pending := Without(r.s.pending, k)), r.s.pending[k], failed, info);
        r.(s := s, landed := r.landed[k := l])
    case KopiaError(skippable) =>
      r.(s := if skippable then r.s.(expectedIgnored := r.s.expectedIgnored + 1) else r.s.(errors := r.s.errors + 1))
  }

  function RunOf(env: Env, es: seq<Event>): Run {
    if es == [] then START else Next(env, RunOf(env, es[..|es| - 1]), es[|es| - 1])
  }

  /** Keys put and not finished since. */
  function Outstanding(es: seq<Event>): set<Key> {
    if es == [] then {}
    else
      match es[|es| - 1]
      case PutFile(p) => Outstanding(es[..|es| - 1]) + {p.key}
      case FinishedFile(k, _, _) => Outstanding(es[..|es| - 1]) - {k}
      case _ => Outstanding(es[..|es| - 1])
  }

  /** Every file is put once, under the key of its path, in one tenant. */
  ghost predicate PutsFresh(tenant: string, env: Env, es: seq<Event>) {
    es == [] ||
    (PutsFresh(tenant, env, es[..|es| - 1])
     && (es[|es| - 1].PutFile? ==> FreshPut(tenant, RunOf(env, es[..|es| - 1]), es[|es| - 1].put)))
  }

  ghost predicate FreshPut(tenant: string, r: Run, p: Put) {
    p.key !in r.put && InTenant(tenant, p.key, p.details)
  }

  predicate InTenant(tenant: string, k: Key, d: ItemDetails) {
    d.repoPath != [] && d.repoPath[0] == tenant && KeyOf(d.repoPath) == k
  }

  // ---------------------------------------------------------------------------
  // Conservation
  // ---------------------------------------------------------------------------

  predicate SameItem(a: ItemDetails, b: ItemDetails) {
    a.(cached := true) == b.(cached := true)
  }

  /** Every file put is either pending or has landed. */
  ghost predicate Accounted(tenant: string, r: Run) {
    && r.landed.Keys !! r.s.pending.Keys && r.landed.Keys + r.s.pending.Keys == r.put.Keys
    && (forall k :: k in r.s.pending ==> SameItem(r.s.pending[k], r.put[k]))
    && (forall k :: k in r.put ==> InTenant(tenant, k, r.put[k]))
  }

  /** File `k` landed in `l`. */
  predicate LandedIn(r: Run, k: Key, l: Landing) {
    k in r.landed && k in r.put && r.landed[k] == l
  }

  /** The details hold the files that landed there, each once. */
  ghost predicate DeetsHold(r: Run) {
    && (forall i :: 0 <= i < |r.s.deets| ==> EntryOwned(r, r.s.deets[i]))
    && (forall k :: LandedIn(r, k, InDeets) ==> InEntries(r.s.deets, r.put[k]))
    && (forall i, j :: 0 <= i < j < |r.s.deets| ==> r.s.deets[i].repoRef != r.s.deets[j].repoRef)
  }

  ghost predicate EntryOwned(r: Run, e: DeetsEntry) {
    exists k :: LandedIn(r, k, InDeets) && EntryOf(e, r.put[k])
  }

  /** The entry has the path, the location and the time that the file was put with. */
  predicate EntryOf(e: DeetsEntry, d: ItemDetails) {
    e.repoRef == d.repoPath && d.locationPath == Some(e.location) && e.modified == d.modTime
  }

  ghost predicate InEntries(deets: seq<DeetsEntry>, d: ItemDetails) {
    exists i :: 0 <= i < |deets| && EntryOf(deets[i], d)
  }

  /** Some entry, whatever it holds, is for this path. */
  ghost predicate HasPath(deets: seq<DeetsEntry>, repoRef: Elements) {
    exists i :: 0 <= i < |deets| && deets[i].repoRef == repoRef
  }

  /** The list to merge holds the files that landed there, each under the reference of its previous path. */
  ghost predicate RefsHold(env: Env, r: Run) {
    && (forall x :: x in r.s.refs ==> RefOwned(env, r, x))
    && (forall k :: LandedIn(r, k, InMerge) ==> RefFor(env, r, k))
  }

  ghost predicate RefOwned(env: Env, r: Run, x: string)
    requires x in r.s.refs
  {
    exists k :: LandedIn(r, k, InMerge) && RefFor(env, r, k) && x == env.shortRef(r.put[k].prevPath.value)
  }

  ghost predicate RefFor(env: Env, r: Run, k: Key) {
    && k in r.put && r.put[k].prevPath.Some? && env.shortRef(r.put[k].prevPath.value) in r.s.refs
    && r.s.refs[env.shortRef(r.put[k].prevPath.value)]
       == PrevRef(r.put[k].repoPath, r.put[k].locationPath, Some(r.put[k].modTime))
  }

  ghost predicate ErrorsHold(r: Run) {
    (exists k :: LandedIn(r, k, Unrecorded)) ==> r.s.errors > 0
  }

  ghost predicate Conserves(tenant: string, env: Env, r: Run) {
    Accounted(tenant, r) && DeetsHold(r) && RefsHold(env, r) && ErrorsHold(r)
  }

  lemma PutKeeps(tenant: string, env: Env, r: Run, p: Put)
    requires Conserves(tenant, env, r) && FreshPut(tenant, r, p)
    ensures Conserves(tenant, env, Next(env, r, PutFile(p)))
  {
    var r' := Next(env, r, PutFile(p));
    forall k, l
      ensures LandedIn(r', k, l) <==> LandedIn(r, k, l)
    {
    }
    forall i | 0 <= i < |r'.s.deets|
      ensures EntryOwned(r', r'.s.deets[i])
    {
      assert EntryOwned(r, r.s.deets[i]);
      var k :| LandedIn(r, k, InDeets) && EntryOf(r.s.deets[i], r.put[k]);
      assert LandedIn(r', k, InDeets);
    }
    forall x | x in r'.s.refs
      ensures RefOwned(env, r', x)
    {
      var k :| LandedIn(r, k, InMerge) && RefFor(env, r, k) && x == env.shortRef(r.put[k].prevPath.value);
      assert LandedIn(r', k, InMerge) && RefFor(env, r', k);
    }
  }

  lemma CachedKeeps(tenant: string, env: Env, r: Run, k: Key)
    requires Conserves(tenant, env, r)
    ensures Conserves(tenant, env, Next(env, r, CachedFile(k)))
  {
    CachedMeans(env, r, k);
    SameLanding(env, r, Next(env, r, CachedFile(k)));
  }

  /** Nothing but the pending file changes. */
  lemma CachedMeans(env: Env, r: Run, k: Key)
    ensures var r' := Next(env, r, CachedFile(k));
      r' == r.(s := r.s.(pending := r'.s.pending))
  {
  }

  lemma ErrorKeeps(tenant: string, env: Env, r: Run, skippable: bool)
    requires Conserves(tenant, env, r)
    ensures Conserves(tenant, env, Next(env, r, KopiaError(skippable)))
  {
    SameLanding(env, r, Next(env, r, KopiaError(skippable)));
  }

  /** Nothing depends on the pending files and the count of errors, except that it does not shrink. */
  lemma SameLanding(env: Env, r: Run, r': Run)
    requires DeetsHold(r) && RefsHold(env, r) && ErrorsHold(r)
    requires r'.put == r.put && r'.landed == r.landed && r'.s.deets == r.s.deets && r'.s.refs == r.s.refs
    requires r.s.errors <= r'.s.errors
    ensures DeetsHold(r') && RefsHold(env, r') && ErrorsHold(r')
  {
    forall k, l
      ensures LandedIn(r', k, l) <==> LandedIn(r, k, l)
    {
    }
    forall x | x in r'.s.refs
      ensures RefOwned(env, r', x)
    {
      var k :| LandedIn(r, k, InMerge) && RefFor(env, r, k) && x == env.shortRef(r.put[k].prevPath.value);
      assert RefFor(env, r', k);
    }
  }

  // ---------------------------------------------------------------------------
  // Finished files
  // ---------------------------------------------------------------------------

  /** The run after pending file `k` has landed in `l`. */
  ghost function Landed(r: Run, k: Key, l: Landing, deets: seq<DeetsEntry>, refs: map<string, PrevRef>,
                        errors: nat): Run {
    Run(r.s.(pending := Without(r.s.pending, k), deets := deets, refs := refs, errors := errors), r.put,
        r.landed[k := l])
  }

  lemma LandKeepsAccounts(tenant: string, r: Run, k: Key, l: Landing, deets: seq<DeetsEntry>,
                          refs: map<string, PrevRef>, errors: nat)
    requires Accounted(tenant, r) && k in r.s.pending
    ensures Accounted(tenant, Landed(r, k, l, deets, refs, errors))
  {
  }

  lemma DeetsStay(tenant: string, r: Run, k: Key, l: Landing, refs: map<string, PrevRef>, errors: nat)
    requires Accounted(tenant, r) && k in r.s.pending && DeetsHold(r) && l != InDeets
    ensures DeetsHold(Landed(r, k, l, r.s.deets, refs, errors))
  {
    var r' := Landed(r, k, l, r.s.deets, refs, errors);
    forall i | 0 <= i < |r'.s.deets|
      ensures EntryOwned(r', r'.s.deets[i])
    {
      assert EntryOwned(r, r.s.deets[i]);
      var x :| LandedIn(r, x, InDeets) && EntryOf(r.s.deets[i], r.put[x]);
      assert LandedIn(r', x, InDeets);
    }
  }

  lemma DeetsGrow(tenant: string, r: Run, k: Key, e: DeetsEntry, errors: nat)
    requires Accounted(tenant, r) && k in r.s.pending && DeetsHold(r) && EntryOf(e, r.put[k])
    ensures DeetsHold(Landed(r, k, InDeets, r.s.deets + [e], r.s.refs, errors))
  {
    var r' := Landed(r, k, InDeets, r.s.deets + [e], r.s.refs, errors);
    assert r'.s.deets[|r.s.deets|] == e;
    forall i | 0 <= i < |r'.s.deets|
      ensures EntryOwned(r', r'.s.deets[i])
    {
      if i < |r.s.deets| {
        assert EntryOwned(r, r.s.deets[i]);
        var x :| LandedIn(r, x, InDeets) && EntryOf(r.s.deets[i], r.put[x]);
        assert LandedIn(r', x, InDeets);
      } else {
        assert LandedIn(r', k, InDeets);
      }
    }
    forall x | LandedIn(r', x, InDeets)
      ensures InEntries(r'.s.deets, r'.put[x])
    {
      if x != k {
        MoreEntries(r.s.deets, e, r.put[x]);
      }
    }
  }

  lemma MoreEntries(deets: seq<DeetsEntry>, e: DeetsEntry, d: ItemDetails)
    requires InEntries(deets, d)
    ensures InEntries(deets + [e], d)
  {
    var i :| 0 <= i < |deets| && EntryOf(deets[i], d);
    assert (deets + [e])[i] == deets[i];
  }

  lemma RefsStay(tenant: string, env: Env, r: Run, k: Key, l: Landing, deets: seq<DeetsEntry>, errors: nat)
    requires Accounted(tenant, r) && k in r.s.pending && RefsHold(env, r) && l != InMerge
    ensures RefsHold(env, Landed(r, k, l, deets, r.s.refs, errors))
  {
    var r' := Landed(r, k, l, deets, r.s.refs, errors);
    forall x | x in r'.s.refs
      ensures RefOwned(env, r', x)
    {
      var j :| LandedIn(r, j, InMerge) && RefFor(env, r, j) && x == env.shortRef(r.put[j].prevPath.value);
      assert LandedIn(r', j, InMerge) && RefFor(env, r', j);
    }
    forall j | LandedIn(r', j, InMerge)
      ensures RefFor(env, r', j)
    {
      assert LandedIn(r, j, InMerge) && RefFor(env, r, j);
    }
  }

  lemma RefsGrow(tenant: string, env: Env, r: Run, k: Key, errors: nat)
    requires Accounted(tenant, r) && k in r.s.pending && RefsHold(env, r)
    requires r.put[k].prevPath.Some? && env.shortRef(r.put[k].prevPath.value) !in r.s.refs
    ensures var d := r.put[k];
      var refs := r.s.refs[env.shortRef(d.prevPath.value) := PrevRef(d.repoPath, d.locationPath, Some(d.modTime))];
      RefsHold(env, Landed(r, k, InMerge, r.s.deets, refs, errors))
  {
    var d := r.put[k];
    var own := env.shortRef(d.prevPath.value);
    var refs := r.s.refs[own := PrevRef(d.repoPath, d.locationPath, Some(d.modTime))];
    var r' := Landed(r, k, InMerge, r.s.deets, refs, errors);
    assert LandedIn(r', k, InMerge) && RefFor(env, r', k);
    forall x | x in r'.s.refs
      ensures RefOwned(env, r', x)
    {
      if x != own {
        assert RefOwned(env, r, x);
        var j :| LandedIn(r, j, InMerge) && RefFor(env, r, j) && x == env.shortRef(r.put[j].prevPath.value);
        assert LandedIn(r', j, InMerge) && RefFor(env, r', j);
      }
    }
    forall j | LandedIn(r', j, InMerge)
      ensures RefFor(env, r', j)
    {
      if j != k {
        assert LandedIn(r, j, InMerge) && RefFor(env, r, j);
      }
    }
  }

  lemma ErrorsStay(tenant: string, r: Run, k: Key, l: Landing, deets: seq<DeetsEntry>, refs: map<string, PrevRef>,
                   errors: nat)
    requires Accounted(tenant, r) && k in r.s.pending && ErrorsHold(r)
    requires r.s.errors <= errors && (l == Unrecorded ==> r.s.errors < errors)
    ensures ErrorsHold(Landed(r, k, l, deets, refs, errors))
  {
    var r' := Landed(r, k, l, deets, refs, errors);
    if j :| LandedIn(r', j, Unrecorded) && j != k {
      assert LandedIn(r, j, Unrecorded);
    }
  }

  /** Where a file lands, and what is recorded there. */
  lemma LandMeans(env: Env, s: State, d: ItemDetails, failed: bool, info: Info)
    ensures var (s', l) := Land(env, s, d, failed, info);
      && s'.pending == s.pending && s'.expectedIgnored == s.expectedIgnored && s.errors <= s'.errors
      && (l == Unrecorded ==> s.errors < s'.errors)
      && (l == UploadFailed <==> failed)
      && (l == GoneInFlight <==> !failed && d.infoer && !d.cached && info == NotFound)
      && (l == InDeets <==> !failed && d.infoer && !d.cached && info == Modified(d.modTime) && d.locationPath.Some?)
      && (l == InMerge <==>
            !failed && (!d.infoer || d.cached) && d.prevPath.Some? && env.shortRef(d.prevPath.value) !in s.refs)
      && (l != Unrecorded && l != InDeets ==> s'.errors == s.errors)
      && (if l == InDeets then
            exists e: DeetsEntry :: EntryOf(e, d) && s'.deets == s.deets + [e] && s'.refs == s.refs
              && s'.errors == s.errors + (if d.modTime == 0 then 1 else 0) + (if env.noFolder(e) then 1 else 0)
          else if l == InMerge then
            && d.prevPath.Some? && env.shortRef(d.prevPath.value) !in s.refs && s'.deets == s.deets
            && s'.refs == s.refs[env.shortRef(d.prevPath.value) := PrevRef(d.repoPath, d.locationPath, Some(d.modTime))]
          else s'.deets == s.deets && s'.refs == s.refs)
  {
  }

  lemma FinishedKeeps(tenant: string, env: Env, r: Run, k: Key, failed: bool, info: Info)
    requires Conserves(tenant, env, r)
    ensures Conserves(tenant, env, Next(env, r, FinishedFile(k, failed, info)))
  {
    if k in r.s.pending {
      var d, start := r.s.pending[k], r.s.(pending := Without(r.s.pending, k));
      var (s, l) := Land(env, start, d, failed, info);
      LandMeans(env, start, d, failed, info);
      assert Next(env, r, FinishedFile(k, failed, info)) == Landed(r, k, l, s.deets, s.refs, s.errors);
      assert SameItem(d, r.put[k]);
      LandKeepsAccounts(tenant, r, k, l, s.deets, s.refs, s.errors);
      ErrorsStay(tenant, r, k, l, s.deets, s.refs, s.errors);
      if l == InDeets {
        var e: DeetsEntry :| EntryOf(e, d) && s.deets == start.deets + [e] && s.refs == start.refs;
        DeetsGrow(tenant, r, k, e, s.errors);
        RefsStay(tenant, env, r, k, l, s.deets, s.errors);
      } else {
        DeetsStay(tenant, r, k, l, s.refs, s.errors);
        if l == InMerge {
          RefsGrow(tenant, env, r, k, s.errors);
        } else {
          RefsStay(tenant, env, r, k, l, s.deets, s.errors);
        }
      }
    }
  }

  lemma {:induction false} RunConserves(tenant: string, env: Env, es: seq<Event>)
    requires PutsFresh(tenant, env, es)
    ensures Conserves(tenant, env, RunOf(env, es))
  {
    if es != [] {
      var r, e := RunOf(env, es[..|es| - 1]), es[|es| - 1];
      RunConserves(tenant, env, es[..|es| - 1]);
      match e {
        case PutFile(p) => PutKeeps(tenant, env, r, p);
        case CachedFile(k) => CachedKeeps(tenant, env, r, k);
        case FinishedFile(k, failed, info) => FinishedKeeps(tenant, env, r, k, failed, info);
        case KopiaError(skippable) => ErrorKeeps(tenant, env, r, skippable);
      }
    }
  }

  /** Only files that were put and not finished since are pending. */
  lemma {:induction false} PendingIsOutstanding(env: Env, es: seq<Event>)
    ensures RunOf(env, es).s.pending.Keys == Outstanding(es)
  {
    if es != [] {
      PendingIsOutstanding(env, es[..|es| - 1]);
      var r := RunOf(env, es[..|es| - 1]);
      match es[|es| - 1] {
        case FinishedFile(k, failed, info) =>
          if k in r.s.pending {
            LandMeans(env, r.s.(pending := Without(r.s.pending, k)), r.s.pending[k], failed, info);
          }
        case _ =>
      }
    }
  }

  ghost predicate InRefs(refs: map<string, PrevRef>, repoRef: Elements) {
    exists x :: x in refs && refs[x].repoRef == repoRef
  }

  /** A file is in the details exactly if it landed there, and in the list to merge exactly if it landed there. */
  lemma FoundWhereItLanded(tenant: string, env: Env, r: Run, k: Key)
    requires Conserves(tenant, env, r) && k in r.put
    ensures HasPath(r.s.deets, r.put[k].repoPath) <==> LandedIn(r, k, InDeets)
    ensures InEntries(r.s.deets, r.put[k]) <==> LandedIn(r, k, InDeets)
    ensures InRefs(r.s.refs, r.put[k].repoPath) <==> LandedIn(r, k, InMerge)
  {
    if i :| 0 <= i < |r.s.deets| && r.s.deets[i].repoRef == r.put[k].repoPath {
      assert EntryOwned(r, r.s.deets[i]);
      var j :| LandedIn(r, j, InDeets) && EntryOf(r.s.deets[i], r.put[j]);
    }
    if x :| x in r.s.refs && r.s.refs[x].repoRef == r.put[k].repoPath {
      assert RefOwned(env, r, x);
      var j :| LandedIn(r, j, InMerge) && RefFor(env, r, j) && x == env.shortRef(r.put[j].prevPath.value);
    }
    if LandedIn(r, k, InMerge) {
      assert RefFor(env, r, k);
    }
  }

  /** Without errors, a finished file is where it belongs. */
  lemma LandedSomewhere(r: Run, k: Key)
    requires ErrorsHold(r) && r.s.errors == 0 && k in r.put && k in r.landed
    ensures LandedIn(r, k, InDeets) || LandedIn(r, k, InMerge) || LandedIn(r, k, UploadFailed) ||
      LandedIn(r, k, GoneInFlight)
  {
    assert !LandedIn(r, k, Unrecorded);
  }

  /**
   In every run in which each file is put once: a file is pending exactly as long as it is
   not finished; it is never both in the details and in the list to merge; its entry in the
   details has the location and the time it was put with; and if no error
   was recorded, a finished file is in exactly one of them, unless its upload failed or it
   was deleted in flight.
   */
  lemma FileIsConserved(tenant: string, env: Env, es: seq<Event>, k: Key)
    requires PutsFresh(tenant, env, es) && k in RunOf(env, es).put
    ensures var r := RunOf(env, es);
      var inDeets, inRefs := HasPath(r.s.deets, r.put[k].repoPath), InRefs(r.s.refs, r.put[k].repoPath);
      && (k in r.s.pending <==> k in Outstanding(es)) && (k in r.s.pending <==> k !in r.landed)
      && !(inDeets && inRefs) && (inDeets ==> InEntries(r.s.deets, r.put[k]))
      && (k in r.landed && r.s.errors == 0 ==>
            (inDeets || inRefs <==> r.landed[k] != UploadFailed && r.landed[k] != GoneInFlight))
  {
    var r := RunOf(env, es);
    RunConserves(tenant, env, es);
    PendingIsOutstanding(env, es);
    FoundWhereItLanded(tenant, env, r, k);
    if k in r.landed && r.s.errors == 0 {
      LandedSomewhere(r, k);
    }
  }

  /** Since file `k` was last put, kopia reported it as cached. */
  predicate ReportedCached(es: seq<Event>, k: Key) {
    es != [] &&
    match es[|es| - 1]
    case PutFile(p) => p.key != k && ReportedCached(es[..|es| - 1], k)
    case CachedFile(x) => x == k || ReportedCached(es[..|es| - 1], k)
    case _ => ReportedCached(es[..|es| - 1], k)
  }

  /** A pending file is as it was put, but for being cached. */
  lemma {:induction false} PendingAsPut(env: Env, es: seq<Event>, k: Key)
    requires k in RunOf(env, es).s.pending
    ensures k in RunOf(env, es).put
    ensures var d := RunOf(env, es).put[k];
      RunOf(env, es).s.pending[k] == d.(cached := d.cached || ReportedCached(es, k))
  {
    var init, e := es[..|es| - 1], es[|es| - 1];
    var r := RunOf(env, init);
    if e.FinishedFile? && e.key in r.s.pending {
      LandMeans(env, r.s.(pending := Without(r.s.pending, e.key)), r.s.pending[e.key], e.failed, e.info);
    }
    if k in r.s.pending {
      PendingAsPut(env, init, k);
    }
  }

  /**
   A file that is finished after the events `es` lands in the details exactly if its upload
   succeeded, it describes itself, it was not cached, it has a location, and it reports the
   time it was put with.  It lands in the list to merge exactly if it was uploaded or cached
   without a description, and nothing is registered yet for its previous path.
   */
  lemma FinishedLandsIn(env: Env, es: seq<Event>, k: Key, failed: bool, info: Info)
    requires k in RunOf(env, es).s.pending
    ensures k in RunOf(env, es).put
    ensures var r, r' := RunOf(env, es), Next(env, RunOf(env, es), FinishedFile(k, failed, info));
      var d := r.put[k];
      var describes := d.infoer && !d.cached && !ReportedCached(es, k);
      && (LandedIn(r', k, InDeets) <==>
            !failed && describes && info == Modified(d.modTime) && d.locationPath.Some?)
      && (LandedIn(r', k, InMerge) <==>
            !failed && !describes && d.prevPath.Some? && env.shortRef(d.prevPath.value) !in r.s.refs)
  {
    var r := RunOf(env, es);
    PendingAsPut(env, es, k);
    LandMeans(env, r.s.(pending := Without(r.s.pending, k)), r.s.pending[k], failed, info);
  }

  /** When every file has been finished, none is pending. */
  lemma NothingPendingAtTheEnd(env: Env, es: seq<Event>)
    requires Outstanding(es) == {}
    ensures RunOf(env, es).s.pending == map[]
  {
    PendingIsOutstanding(env, es);
  }

  // ---------------------------------------------------------------------------
  // The callbacks
  // ---------------------------------------------------------------------------

  class CorsoProgress {
    const noFolder: DeetsEntry -> bool
    const toMerge: Merger
    var pending: map<Key, ItemDetails>
    var deets: seq<DeetsEntry>
    var errors: nat
    var expectedIgnoredErrors: nat
    /** The run this tracker has seen. */
    ghost var run: Run

    constructor (toMerge: Merger, noFolder: DeetsEntry -> bool)
      requires toMerge.repoRefs == map[]
      ensures Valid() && run == START && this.toMerge == toMerge
    {
      this.noFolder, this.toMerge := noFolder, toMerge;
      pending, deets, errors, expectedIgnoredErrors := map[], [], 0, 0;
      run := START;
    }

    ghost predicate Valid()
      reads this, toMerge
    {
      run.s == State(pending, deets, toMerge.repoRefs, errors, expectedIgnoredErrors)
    }

    ghost function TheEnv(): Env {
      Env(toMerge.shortRef, noFolder)
    }

    method PutItem(k: Key, v: ItemDetails)
      requires Valid()
      modifies this`pending, this`run
      ensures Valid() && run == Next(TheEnv(), old(run), PutFile(Put(k, v)))
      ensures pending == old(pending)[k := v]
    {
      pending := pending[k := v];
      run := Next(TheEnv(), run, PutFile(Put(k, v)));
    }

    method Cached(fname: Key)
      requires Valid()
      modifies this`pending, this`run
      ensures Valid() && run == Next(TheEnv(), old(run), CachedFile(fname))
      ensures pending.Keys == old(pending).Keys
      ensures forall k :: k in pending ==>
        pending[k] == if k == fname then old(pending)[k].(cached := true) else old(pending)[k]
    {
      run := Next(TheEnv(), run, CachedFile(fname));
      if fname !in pending {
        return;
      }
      pending := pending[fname := pending[fname].(cached := true)];
    }

    method Error(skippable: bool)
      requires Valid()
      modifies this`errors, this`expectedIgnoredErrors, this`run
      ensures Valid() && run == Next(TheEnv(), old(run), KopiaError(skippable))
      ensures errors == old(errors) + if skippable then 0 else 1
      ensures expectedIgnoredErrors == old(expectedIgnoredErrors) + if skippable then 1 else 0
    {
      run := Next(TheEnv(), run, KopiaError(skippable));
      if skippable {
        expectedIgnoredErrors := expectedIgnoredErrors + 1;
        return;
      }
      errors := errors + 1;
    }

    /**
     Whatever happens, the file is no longer pending.  It gets an entry in the details if it
     was uploaded, describes itself, was not cached, has a location, and kept its time.
     */
    method Finished(relativePath: Key, failed: bool, info: Info)
      requires Valid()
      modifies this, toMerge
      ensures Valid() && run == Next(TheEnv(), old(run), FinishedFile(relativePath, failed, info))
      ensures pending == old(pending) - {relativePath}
      ensures deets == old(deets) + if relativePath in old(pending) then
          NewEntry(old(pending)[relativePath], failed, info) else []
    {
      run := Next(TheEnv(), run, FinishedFile(relativePath, failed, info));
      var found := relativePath in pending;
      var d := if found then Some(pending[relativePath]) else None;
      pending := Without(pending, relativePath);
      if failed || d.None? {
        return;
      }
      Record(d.value, info);
    }

    static ghost function NewEntry(d: ItemDetails, failed: bool, info: Info): seq<DeetsEntry> {
      if !failed && d.infoer && !d.cached && info == Modified(d.modTime) && d.locationPath.Some?
      then [DeetsEntry(d.repoPath, d.locationPath.value, d.modTime)] else []
    }

    method Record(d: ItemDetails, info: Info)
      modifies this`deets, this`errors, toMerge
      ensures State(pending, deets, toMerge.repoRefs, errors, expectedIgnoredErrors)
           == Land(TheEnv(), old(State(pending, deets, toMerge.repoRefs, errors, expectedIgnoredErrors)), d, false,
               info).0
      ensures deets == old(deets) + NewEntry(d, false, info)
    {
      if !d.infoer || d.cached {
        if d.prevPath.None? {
          errors := errors + 1;
          return;
        }
        var err := toMerge.AddRepoRef(d.prevPath.value, Some(d.modTime), Some(d.repoPath), d.locationPath);
        if err.Some? {
          errors := errors + 1;
        }
        return;
      }
      if info.NotFound? {
        return;
      } else if info.InfoFails? {
        errors := errors + 1;
        return;
      } else if d.modTime != info.time {
        errors := errors + 1;
        return;
      } else if info.time == ZERO_TIME {
        errors := errors + 1;
      }
      if d.locationPath.None? {
        errors := errors + 1;
        return;
      }
      var entry := DeetsEntry(d.repoPath, d.locationPath.value, info.time);
      deets := deets + [entry];
      if noFolder(entry) {
        errors := errors + 1;
      }
    }
  }
}
