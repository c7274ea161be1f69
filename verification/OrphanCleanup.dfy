/**
 The whole of `cleanupOrphanedData`, and exactly what it deletes.
 */
module OrphanCleanup {
  import opened Wrappers
  import opened ManifestStore
  import opened Cleanup

  /** The old item data snapshots and the IDs of old details. */
  datatype View = View(data: map<ID, Snapshot>, deets: set<ID>)

  function ItemSnapshots(snaps: seq<Snapshot>, cutoff: Time): map<ID, Snapshot> {
    if snaps == [] then map[]
    else
      var rest, s := ItemSnapshots(snaps[..|snaps| - 1], cutoff), snaps[|snaps| - 1];
      if Old(s.modTime, cutoff) && ItemData(s) then rest[s.id := s] else rest
  }

  function DetailsSnapshots(snaps: seq<Snapshot>, cutoff: Time): set<ID> {
    set s | s in snaps && Old(s.modTime, cutoff) && !ItemData(s) :: s.id
  }

  function DetailsModels(details: seq<DetailsModel>, cutoff: Time): set<ID> {
    set d | d in details && Old(d.modTime, cutoff) :: d.id
  }

  function OldSnapshots(snaps: seq<Snapshot>, cutoff: Time): set<ID> {
    set s | s in snaps && Old(s.modTime, cutoff) :: s.id
  }

  function SeenBy(st: Store, cutoff: Time): View {
    View(ItemSnapshots(st.snapshots, cutoff),
         DetailsSnapshots(st.snapshots, cutoff) + DetailsModels(st.details, cutoff))
  }

  /** Model, item data and details are all there, and old. */
  predicate Complete(v: View, cutoff: Time, lb: ListedBackup) {
    && Old(lb.backup.modTime, cutoff) && lb.fetch.Loads?
    && lb.backup.snapshotID in v.data && lb.backup.DetailsRef() in v.deets
  }

  function Pieces(b: Backup): set<ID> {
    {b.modelID, b.snapshotID, b.DetailsRef()}
  }

  /** A complete backup with the tags of its snapshot. */
  function Tagged(v: View, lb: ListedBackup): Option<Backup> {
    if lb.backup.snapshotID in v.data then Transferred(v.data[lb.backup.snapshotID], lb.backup) else None
  }

  function KeysOf(v: View, lb: ListedBackup): set<string> {
    match Tagged(v, lb)
    case None => {}
    case Some(b) => if TaggedKeys(b).Some? then TaggedKeys(b).value else {}
  }

  // ---------------------------------------------------------------------------
  // What should be deleted
  // ---------------------------------------------------------------------------

  ghost predicate OldEntry(st: Store, cutoff: Time, x: ID) {
    || x in OldSnapshots(st.snapshots, cutoff)
    || x in DetailsModels(st.details, cutoff)
    || exists i :: OldModel(st.backups, cutoff, i, x)
  }

  ghost predicate OldModel(bs: seq<ListedBackup>, cutoff: Time, i: int, x: ID) {
    0 <= i < |bs| && Old(bs[i].backup.modTime, cutoff) && bs[i].backup.modelID == x
  }

  /** `x` is a piece of a backup that is complete, with all its pieces old. */
  ghost predicate Shielded(bs: seq<ListedBackup>, v: View, cutoff: Time, x: ID) {
    exists i :: Shields(bs, v, cutoff, i, x)
  }

  ghost predicate Shields(bs: seq<ListedBackup>, v: View, cutoff: Time, i: int, x: ID) {
    0 <= i < |bs| && Complete(v, cutoff, bs[i]) && x in Pieces(bs[i].backup)
  }

  ghost predicate AssistFor(bs: seq<ListedBackup>, v: View, cutoff: Time, i: int, k: string) {
    0 <= i < |bs| && Complete(v, cutoff, bs[i]) && bs[i].backup.TaggedAssist() && k in KeysOf(v, bs[i])
  }

  ghost predicate MergeFor(bs: seq<ListedBackup>, v: View, cutoff: Time, i: int, k: string) {
    0 <= i < |bs| && Complete(v, cutoff, bs[i]) && !bs[i].backup.TaggedAssist() && k in KeysOf(v, bs[i])
  }

  /** Listed earlier, of the same age or younger; or listed later, and younger. */
  predicate Beats(bs: seq<ListedBackup>, j: int, i: int)
    requires 0 <= i < |bs| && 0 <= j < |bs|
  {
    || bs[i].backup.creationTime < bs[j].backup.creationTime
    || (bs[i].backup.creationTime == bs[j].backup.creationTime && j < i)
  }

  /** For reason `k`, another assist backup is younger, or a merge backup is. */
  ghost predicate Outdated(bs: seq<ListedBackup>, v: View, cutoff: Time, i: int, k: string)
    requires 0 <= i < |bs|
  {
    || (exists j :: AssistFor(bs, v, cutoff, j, k) && Beats(bs, j, i))
    || (exists j :: MergeFor(bs, v, cutoff, j, k) && bs[i].backup.creationTime < bs[j].backup.creationTime)
  }

  /** A complete assist backup that is outdated for every reason it has. */
  ghost predicate SupersededAt(bs: seq<ListedBackup>, v: View, cutoff: Time, i: int) {
    && 0 <= i < |bs| && Complete(v, cutoff, bs[i]) && bs[i].backup.TaggedAssist()
    && Tagged(v, bs[i]).Some? && TaggedKeys(Tagged(v, bs[i]).value).Some?
    && forall k :: k in KeysOf(v, bs[i]) ==> Outdated(bs, v, cutoff, i, k)
  }

  ghost predicate DeletedPiece(bs: seq<ListedBackup>, v: View, cutoff: Time, i: int, x: ID) {
    SupersededAt(bs, v, cutoff, i) && x in AssistPieces(bs[i].backup)
  }

  /** An old entry of no complete backup, or a piece of a superseded assist backup. */
  ghost predicate Deleted(st: Store, cutoff: Time, x: ID) {
    var v := SeenBy(st, cutoff);
    || (OldEntry(st, cutoff, x) && !Shielded(st.backups, v, cutoff, x))
    || exists i :: DeletedPiece(st.backups, v, cutoff, i, x)
  }

  /** Loading some old backup model fails for another reason than that it is gone. */
  ghost predicate LoadFails(bs: seq<ListedBackup>, cutoff: Time) {
    exists i :: LoadFailsAt(bs, cutoff, i)
  }

  ghost predicate LoadFailsAt(bs: seq<ListedBackup>, cutoff: Time, i: int) {
    0 <= i < |bs| && Old(bs[i].backup.modTime, cutoff) && bs[i].fetch.Fails?
  }

  // ---------------------------------------------------------------------------
  // The loop over backups
  // ---------------------------------------------------------------------------

  /** The maps and slices the loop fills. */
  datatype Marks = Marks(toDelete: set<ID>, assists: seq<Backup>, recent: map<string, Time>)

  function Later(recent: map<string, Time>, keys: set<string>, t: Time): map<string, Time> {
    map k | k in recent.Keys + keys :: if k !in keys || (k in recent && t < recent[k]) then recent[k] else t
  }

  function Mark(v: View, cutoff: Time, m: Marks, lb: ListedBackup): Marks {
    if !Old(lb.backup.modTime, cutoff) then m
    else if !Complete(v, cutoff, lb) then m.(toDelete := m.toDelete + {lb.backup.modelID})
    else
      var m' := m.(toDelete := m.toDelete + {lb.backup.modelID} - Pieces(lb.backup));
      if Tagged(v, lb).None? then m'
      else if lb.backup.TaggedAssist() then m'.(assists := m.assists + [Tagged(v, lb).value])
      else m'.(recent := Later(m.recent, KeysOf(v, lb), lb.backup.creationTime))
  }

  function MarkAll(v: View, cutoff: Time, start: set<ID>, bs: seq<ListedBackup>): Marks {
    if bs == [] then Marks(start, [], map[])
    else Mark(v, cutoff, MarkAll(v, cutoff, start, bs[..|bs| - 1]), bs[|bs| - 1])
  }

  predicate OtherModel(a: ListedBackup, b: ListedBackup) {
    a.backup.modelID != b.backup.modelID
  }

  predicate Unseen(v: View, lb: ListedBackup) {
    lb.backup.modelID !in v.data && lb.backup.modelID !in v.deets
  }

  /** Models have IDs that no snapshot, no details and no other model has. */
  ghost predicate ModelsApart(v: View, bs: seq<ListedBackup>) {
    && (forall i, j :: 0 <= i < j < |bs| ==> OtherModel(bs[i], bs[j]))
    && (forall i :: 0 <= i < |bs| ==> Unseen(v, bs[i]))
  }

  lemma {:induction false} OrphansAreMarked(v: View, cutoff: Time, start: set<ID>, bs: seq<ListedBackup>, x: ID)
    requires ModelsApart(v, bs)
    ensures x in MarkAll(v, cutoff, start, bs).toDelete <==>
      (x in start || exists i :: OldModel(bs, cutoff, i, x)) && !Shielded(bs, v, cutoff, x)
  {
    if bs != [] {
      var init, n := bs[..|bs| - 1], |bs| - 1;
      OrphansAreMarked(v, cutoff, start, init, x);
      forall i | 0 <= i < n
        ensures OldModel(bs, cutoff, i, x) <==> OldModel(init, cutoff, i, x)
        ensures Shields(bs, v, cutoff, i, x) <==> Shields(init, v, cutoff, i, x)
      {
      }
      assert (exists i :: OldModel(bs, cutoff, i, x)) <==>
        (exists i :: OldModel(init, cutoff, i, x)) || OldModel(bs, cutoff, n, x);
      assert Shielded(bs, v, cutoff, x) <==> Shielded(init, v, cutoff, x) || Shields(bs, v, cutoff, n, x);
    }
  }

  lemma RecentStep(v: View, cutoff: Time, start: set<ID>, bs: seq<ListedBackup>, k: string)
    requires bs != []
    ensures var n := |bs| - 1;
      var before, recent := MarkAll(v, cutoff, start, bs[..n]).recent, MarkAll(v, cutoff, start, bs).recent;
      if MergeFor(bs, v, cutoff, n, k) && !(k in before && bs[n].backup.creationTime < before[k])
      then k in recent && recent[k] == bs[n].backup.creationTime
      else (k in recent <==> k in before) && (k in recent ==> recent[k] == before[k])
  {
  }

  lemma {:induction false} RecentIsNewest(v: View, cutoff: Time, start: set<ID>, bs: seq<ListedBackup>, k: string)
    ensures var recent := MarkAll(v, cutoff, start, bs).recent;
      && (k in recent ==> exists i :: MergeFor(bs, v, cutoff, i, k) && bs[i].backup.creationTime == recent[k])
      && (forall i :: MergeFor(bs, v, cutoff, i, k) ==> k in recent && bs[i].backup.creationTime <= recent[k])
  {
    if bs != [] {
      var init, n := bs[..|bs| - 1], |bs| - 1;
      RecentIsNewest(v, cutoff, start, init, k);
      var before, recent := MarkAll(v, cutoff, start, init).recent, MarkAll(v, cutoff, start, bs).recent;
      forall i | 0 <= i < n
        ensures MergeFor(bs, v, cutoff, i, k) <==> MergeFor(init, v, cutoff, i, k)
        ensures init[i] == bs[i]
      {
      }
      RecentStep(v, cutoff, start, bs, k);
      if k in recent && !(MergeFor(bs, v, cutoff, n, k) && recent[k] == bs[n].backup.creationTime) {
        var i :| MergeFor(init, v, cutoff, i, k) && init[i].backup.creationTime == before[k];
        assert MergeFor(bs, v, cutoff, i, k);
      }
    }
  }

  // ---------------------------------------------------------------------------
  // The assist backups the loop collects
  // ---------------------------------------------------------------------------

  ghost predicate AssistAt(bs: seq<ListedBackup>, v: View, cutoff: Time, i: int) {
    0 <= i < |bs| && Complete(v, cutoff, bs[i]) && bs[i].backup.TaggedAssist() && Tagged(v, bs[i]).Some?
  }

  lemma {:induction false} AssistsAre(v: View, cutoff: Time, start: set<ID>, bs: seq<ListedBackup>, b: Backup)
    ensures b in MarkAll(v, cutoff, start, bs).assists <==>
      exists i :: AssistAt(bs, v, cutoff, i) && b == Tagged(v, bs[i]).value
  {
    if bs != [] {
      var init, n := bs[..|bs| - 1], |bs| - 1;
      AssistsAre(v, cutoff, start, init, b);
      forall i | 0 <= i < n
        ensures AssistAt(bs, v, cutoff, i) <==> AssistAt(init, v, cutoff, i)
        ensures init[i] == bs[i]
      {
      }
      if i :| AssistAt(init, v, cutoff, i) && b == Tagged(v, init[i]).value {
        assert AssistAt(bs, v, cutoff, i);
      }
      if AssistAt(bs, v, cutoff, n) {
        var before := MarkAll(v, cutoff, start, init).assists;
        assert MarkAll(v, cutoff, start, bs).assists == before + [Tagged(v, bs[n]).value];
      }
    }
  }

  /** The values of the entries that satisfy `has`, in order. */
  ghost function Picked(bs: seq<ListedBackup>, has: ListedBackup -> bool, value: ListedBackup -> Backup): seq<Backup> {
    if bs == [] then []
    else Picked(bs[..|bs| - 1], has, value) + if has(bs[|bs| - 1]) then [value(bs[|bs| - 1])] else []
  }

  /** `i` is where the youngest entry that satisfies `has` is listed. */
  ghost predicate YoungestAt(bs: seq<ListedBackup>, has: ListedBackup -> bool, i: int) {
    && 0 <= i < |bs| && has(bs[i])
    && forall j :: 0 <= j < |bs| && has(bs[j]) ==> !Beats(bs, j, i)
  }

  ghost predicate NoneHas(bs: seq<ListedBackup>, has: ListedBackup -> bool) {
    forall i :: 0 <= i < |bs| ==> !has(bs[i])
  }

  lemma {:induction false} PickedNone(bs: seq<ListedBackup>, has: ListedBackup -> bool, value: ListedBackup -> Backup)
    ensures Picked(bs, has, value) == [] <==> NoneHas(bs, has)
  {
    if bs != [] {
      var init := bs[..|bs| - 1];
      PickedNone(init, has, value);
      assert forall i :: 0 <= i < |init| ==> init[i] == bs[i];
    }
  }

  /** The stable sort picks the youngest, the first listed among equals. */
  lemma {:induction false} NewestIsYoungest(bs: seq<ListedBackup>, has: ListedBackup -> bool,
                                            value: ListedBackup -> Backup)
    returns (i: int)
    requires forall lb :: value(lb).creationTime == lb.backup.creationTime
    requires Picked(bs, has, value) != []
    ensures YoungestAt(bs, has, i) && Newest(Picked(bs, has, value)) == value(bs[i])
  {
    var init, last := bs[..|bs| - 1], bs[|bs| - 1];
    var before := Picked(init, has, value);
    if before == [] {
      PickedNone(init, has, value);
      i := |bs| - 1;
    } else {
      i := NewestIsYoungest(init, has, value);
      assert init[i] == bs[i] && before + [] == before;
      if has(last) && bs[i].backup.creationTime < last.backup.creationTime {
        i := |bs| - 1;
      }
    }
  }

  ghost function HasReason(v: View, cutoff: Time, k: string): ListedBackup -> bool {
    lb => Complete(v, cutoff, lb) && lb.backup.TaggedAssist() && k in KeysOf(v, lb)
  }

  ghost function TaggedOrSelf(v: View): ListedBackup -> Backup {
    lb => if Tagged(v, lb).Some? then Tagged(v, lb).value else lb.backup
  }

  lemma MarkAssists(v: View, cutoff: Time, start: set<ID>, bs: seq<ListedBackup>)
    requires bs != []
    ensures MarkAll(v, cutoff, start, bs).assists ==
      MarkAll(v, cutoff, start, bs[..|bs| - 1]).assists
      + if AssistAt(bs, v, cutoff, |bs| - 1) then [Tagged(v, bs[|bs| - 1]).value] else []
  {
  }

  lemma {:induction false} GroupIsPicked(v: View, cutoff: Time, start: set<ID>, bs: seq<ListedBackup>, k: string)
    ensures WithKey(MarkAll(v, cutoff, start, bs).assists, k) == Picked(bs, HasReason(v, cutoff, k), TaggedOrSelf(v))
  {
    if bs != [] {
      var init, last := bs[..|bs| - 1], bs[|bs| - 1];
      GroupIsPicked(v, cutoff, start, init, k);
      MarkAssists(v, cutoff, start, bs);
    }
  }

  lemma {:induction false} AssistsDistinct(v: View, cutoff: Time, start: set<ID>, bs: seq<ListedBackup>)
    requires ModelsApart(v, bs)
    ensures DistinctModels(MarkAll(v, cutoff, start, bs).assists)
  {
    if bs != [] {
      var init, last := bs[..|bs| - 1], bs[|bs| - 1];
      AssistsDistinct(v, cutoff, start, init);
      MarkAssists(v, cutoff, start, bs);
      var before := MarkAll(v, cutoff, start, init).assists;
      forall i | 0 <= i < |before|
        ensures before[i].modelID != last.backup.modelID
      {
        AssistsAre(v, cutoff, start, init, before[i]);
        var j :| AssistAt(init, v, cutoff, j) && before[i] == Tagged(v, init[j]).value;
        assert OtherModel(bs[j], last);
      }
    }
  }

  // ---------------------------------------------------------------------------
  // Superseded assist backups
  // ---------------------------------------------------------------------------

  /** Different entries have different values. */
  ghost predicate ValuesDiffer(bs: seq<ListedBackup>, value: ListedBackup -> Backup) {
    forall i, j :: 0 <= i < j < |bs| ==> value(bs[i]) != value(bs[j])
  }

  lemma PickedWinner(bs: seq<ListedBackup>, has: ListedBackup -> bool, value: ListedBackup -> Backup, i: int)
    requires forall lb :: value(lb).creationTime == lb.backup.creationTime
    requires ValuesDiffer(bs, value) && 0 <= i < |bs| && has(bs[i])
    ensures Picked(bs, has, value) != []
    ensures Newest(Picked(bs, has, value)) == value(bs[i]) <==> YoungestAt(bs, has, i)
  {
    PickedNone(bs, has, value);
    var j := NewestIsYoungest(bs, has, value);
    assert i < j ==> value(bs[i]) != value(bs[j]);
    assert j < i ==> value(bs[j]) != value(bs[i]);
    assert YoungestAt(bs, has, i) ==> !Beats(bs, j, i);
  }

  lemma YoungestWins(v: View, cutoff: Time, start: set<ID>, bs: seq<ListedBackup>, i: int, k: string)
    requires ModelsApart(v, bs) && AssistFor(bs, v, cutoff, i, k)
    ensures var group := WithKey(MarkAll(v, cutoff, start, bs).assists, k);
      group != [] && (Newest(group) == Tagged(v, bs[i]).value <==> YoungestAt(bs, HasReason(v, cutoff, k), i))
  {
    GroupIsPicked(v, cutoff, start, bs, k);
    PickedWinner(bs, HasReason(v, cutoff, k), TaggedOrSelf(v), i);
  }

  lemma NoYoungerMerge(v: View, cutoff: Time, start: set<ID>, bs: seq<ListedBackup>, t: Time, k: string)
    ensures TimeOf(MarkAll(v, cutoff, start, bs).recent, k) <= t <==>
      !exists j :: MergeFor(bs, v, cutoff, j, k) && t < bs[j].backup.creationTime
  {
    RecentIsNewest(v, cutoff, start, bs, k);
  }

  lemma KeptMeans(v: View, cutoff: Time, start: set<ID>, bs: seq<ListedBackup>, i: int, k: string)
    requires ModelsApart(v, bs) && AssistFor(bs, v, cutoff, i, k)
    ensures var m := MarkAll(v, cutoff, start, bs);
      KeptFor(m.assists, m.recent, Tagged(v, bs[i]).value, k) <==> !Outdated(bs, v, cutoff, i, k)
  {
    YoungestWins(v, cutoff, start, bs, i, k);
    NoYoungerMerge(v, cutoff, start, bs, bs[i].backup.creationTime, k);
  }

  lemma SupersededMeans(v: View, cutoff: Time, start: set<ID>, bs: seq<ListedBackup>, i: int)
    requires ModelsApart(v, bs) && AssistAt(bs, v, cutoff, i)
    ensures var m := MarkAll(v, cutoff, start, bs);
      Superseded(m.assists, m.recent, Tagged(v, bs[i]).value) <==> SupersededAt(bs, v, cutoff, i)
  {
    var b := Tagged(v, bs[i]).value;
    AssistsAre(v, cutoff, start, bs, b);
    if TaggedKeys(b).Some? {
      forall k | k in TaggedKeys(b).value
        ensures KeptFor(MarkAll(v, cutoff, start, bs).assists, MarkAll(v, cutoff, start, bs).recent, b, k)
           <==> !Outdated(bs, v, cutoff, i, k)
      {
        KeptMeans(v, cutoff, start, bs, i, k);
      }
    }
  }

  lemma SupersededPieces(v: View, cutoff: Time, start: set<ID>, bs: seq<ListedBackup>, x: ID)
    requires ModelsApart(v, bs)
    ensures var m := MarkAll(v, cutoff, start, bs);
      (exists b :: Superseded(m.assists, m.recent, b) && x in AssistPieces(b)) <==>
        exists i :: DeletedPiece(bs, v, cutoff, i, x)
  {
    var m := MarkAll(v, cutoff, start, bs);
    if b :| Superseded(m.assists, m.recent, b) && x in AssistPieces(b) {
      AssistsAre(v, cutoff, start, bs, b);
      var i :| AssistAt(bs, v, cutoff, i) && b == Tagged(v, bs[i]).value;
      SupersededMeans(v, cutoff, start, bs, i);
      assert DeletedPiece(bs, v, cutoff, i, x);
    }
    if i :| DeletedPiece(bs, v, cutoff, i, x) {
      SupersededMeans(v, cutoff, start, bs, i);
      assert x in AssistPieces(Tagged(v, bs[i]).value);
    }
  }

  // ---------------------------------------------------------------------------
  // cleanupOrphanedData
  // ---------------------------------------------------------------------------

  lemma {:induction false} ItemSnapshotsAre(snaps: seq<Snapshot>, cutoff: Time, id: ID)
    ensures id in ItemSnapshots(snaps, cutoff) ==>
      var s := ItemSnapshots(snaps, cutoff)[id];
      s in snaps && s.id == id && Old(s.modTime, cutoff) && ItemData(s)
    ensures forall s :: s in snaps && s.id == id && Old(s.modTime, cutoff) && ItemData(s) ==>
      id in ItemSnapshots(snaps, cutoff)
  {
    if snaps != [] {
      ItemSnapshotsAre(snaps[..|snaps| - 1], cutoff, id);
    }
  }

  lemma DetailsAreOld(st: Store, cutoff: Time, x: ID)
    ensures x in SeenBy(st, cutoff).deets ==> OldEntry(st, cutoff, x)
    ensures x in SeenBy(st, cutoff).data ==> OldEntry(st, cutoff, x)
  {
    ItemSnapshotsAre(st.snapshots, cutoff, x);
  }

  /** Only old entries are deleted. */
  lemma DeletedIsOld(st: Store, cutoff: Time, x: ID)
    ensures Deleted(st, cutoff, x) && x != "" ==> OldEntry(st, cutoff, x)
  {
    var bs, v := st.backups, SeenBy(st, cutoff);
    if i :| DeletedPiece(bs, v, cutoff, i, x) && x != "" {
      DetailsAreOld(st, cutoff, x);
      assert OldModel(bs, cutoff, i, bs[i].backup.modelID);
    }
  }

  lemma StoreModelsApart(st: Store, cutoff: Time)
    requires st.DistinctIDs()
    ensures ModelsApart(SeenBy(st, cutoff), st.backups)
  {
    forall i | 0 <= i < |st.backups|
      ensures Unseen(SeenBy(st, cutoff), st.backups[i])
    {
      ItemSnapshotsAre(st.snapshots, cutoff, st.backups[i].backup.modelID);
    }
  }

  /** Sorts the old snapshots into item data and details. */
  method SortSnapshots(snaps: seq<Snapshot>, cutoff: Time)
    returns (toDelete: set<ID>, dataSnaps: map<ID, Snapshot>, deets: set<ID>)
    ensures toDelete == OldSnapshots(snaps, cutoff)
    ensures dataSnaps == ItemSnapshots(snaps, cutoff) && deets == DetailsSnapshots(snaps, cutoff)
  {
    toDelete, dataSnaps, deets := {}, map[], {};
    for i := 0 to |snaps|
      invariant toDelete == OldSnapshots(snaps[..i], cutoff)
      invariant dataSnaps == ItemSnapshots(snaps[..i], cutoff) && deets == DetailsSnapshots(snaps[..i], cutoff)
    {
      var snap := snaps[i];
      SortStep(snaps, i, cutoff);
      if !(snap.modTime < cutoff) {
        continue;
      }
      toDelete := toDelete + {snap.id};
      if TagKey(TAG_BACKUP_CATEGORY) in snap.labels {
        dataSnaps := dataSnaps[snap.id := snap];
        continue;
      }
      deets := deets + {snap.id};
    }
    assert snaps[..|snaps|] == snaps;
  }

  lemma SortStep(snaps: seq<Snapshot>, i: nat, cutoff: Time)
    requires i < |snaps|
    ensures var s := snaps[i];
      && OldSnapshots(snaps[..i + 1], cutoff) ==
         OldSnapshots(snaps[..i], cutoff) + (if Old(s.modTime, cutoff) then {s.id} else {})
      && ItemSnapshots(snaps[..i + 1], cutoff) ==
           (if Old(s.modTime, cutoff) && ItemData(s) then ItemSnapshots(snaps[..i], cutoff)[s.id := s]
            else ItemSnapshots(snaps[..i], cutoff))
      && DetailsSnapshots(snaps[..i + 1], cutoff) ==
           DetailsSnapshots(snaps[..i], cutoff) + (if Old(s.modTime, cutoff) && !ItemData(s) then {s.id} else {})
  {
    assert snaps[..i + 1] == snaps[..i] + [snaps[i]];
  }

  method OldDetails(details: seq<DetailsModel>, cutoff: Time) returns (ids: set<ID>)
    ensures ids == DetailsModels(details, cutoff)
  {
    ids := {};
    for i := 0 to |details|
      invariant ids == DetailsModels(details[..i], cutoff)
    {
      assert details[..i + 1] == details[..i] + [details[i]];
      if !(details[i].modTime < cutoff) {
        continue;
      }
      ids := ids + {details[i].id};
    }
    assert details[..|details|] == details;
  }

  /** Records a merge base's creation time under each of its keys, unless a newer one is known. */
  method RecordMergeBase(recent: map<string, Time>, keys: set<string>, t: Time) returns (res: map<string, Time>)
    ensures res == Later(recent, keys, t)
  {
    res := recent;
    var left := keys;
    while left != {}
      invariant left <= keys && res == Later(recent, keys - left, t)
      decreases left
    {
      var tag :| tag in left;
      assert keys - (left - {tag}) == (keys - left) + {tag};
      left := left - {tag};
      if tag in res && t < res[tag] {
        continue;
      }
      res := res[tag := t];
    }
    assert keys - left == keys;
  }

  /** The loop over backup models. */
  method MarkBackups(bups: seq<ListedBackup>, v: View, cutoff: Time, start: set<ID>) returns (res: Option<Marks>)
    ensures res.None? <==> LoadFails(bups, cutoff)
    ensures res.Some? ==> res.value == MarkAll(v, cutoff, start, bups)
  {
    var toDelete, assistBackups, mostRecentMergeBase := start, [], map[];
    for i := 0 to |bups|
      invariant forall j :: 0 <= j < i ==> !LoadFailsAt(bups, cutoff, j)
      invariant Marks(toDelete, assistBackups, mostRecentMergeBase) == MarkAll(v, cutoff, start, bups[..i])
    {
      var bup := bups[i];
      MarkStep(bups, v, cutoff, start, i);
      if !(bup.backup.modTime < cutoff) {
        continue;
      }
      if bup.fetch.Fails? {
        assert LoadFailsAt(bups, cutoff, i);
        return None;
      }
      toDelete := toDelete + {bup.backup.modelID};
      if bup.fetch.IsNotFound? {
        continue;
      }
      var bm := bup.backup;
      var ssid := bm.streamStoreID;
      if ssid == "" {
        ssid := bm.detailsID;
      }
      if bm.snapshotID in v.data && ssid in v.deets {
        toDelete := toDelete - {bm.modelID, bm.snapshotID, ssid};
        var tagged := TransferTags(v.data[bm.snapshotID], bm);
        if tagged.None? {
          continue;
        }
        if bm.TaggedAssist() {
          assistBackups := assistBackups + [tagged.value];
          continue;
        }
        var tags := KeysForBackup(tagged.value);
        if tags.Some? {
          mostRecentMergeBase := RecordMergeBase(mostRecentMergeBase, tags.value, bm.creationTime);
        }
      }
    }
    assert bups[..|bups|] == bups;
    return Some(Marks(toDelete, assistBackups, mostRecentMergeBase));
  }

  lemma MarkStep(bs: seq<ListedBackup>, v: View, cutoff: Time, start: set<ID>, i: nat)
    requires i < |bs|
    ensures MarkAll(v, cutoff, start, bs[..i + 1]) == Mark(v, cutoff, MarkAll(v, cutoff, start, bs[..i]), bs[i])
  {
    assert bs[..i + 1][..i] == bs[..i];
  }

  /** Nothing is older than the zero time. */
  function Cutoff(now: Time, gcBuffer: nat): Time {
    if gcBuffer <= now then now - gcBuffer else 0
  }

  /**
   Exactly the old entries of no complete backup are deleted, and the pieces of
   superseded assist backups.  If a model cannot be loaded, nothing is.
   */
  method CleanupOrphanedData(st: Store, now: Time, gcBuffer: nat) returns (res: Option<set<ID>>)
    requires st.DistinctIDs()
    ensures res.None? <==> LoadFails(st.backups, Cutoff(now, gcBuffer))
    ensures res.Some? ==> forall x :: x in res.value <==> Deleted(st, Cutoff(now, gcBuffer), x)
  {
    var cutoff := Cutoff(now, gcBuffer);
    var toDelete, dataSnaps, deets := SortSnapshots(st.snapshots, cutoff);
    var deetsModels := OldDetails(st.details, cutoff);
    var v := View(dataSnaps, deets + deetsModels);
    var start := toDelete + deetsModels;
    var marks := MarkBackups(st.backups, v, cutoff, start);
    if marks.None? {
      return None;
    }
    StoreModelsApart(st, cutoff);
    AssistsDistinct(v, cutoff, start, st.backups);
    var assistItems := CollectOldAssistBases(marks.value.recent, marks.value.assists);
    MarkedIsDeleted(st, cutoff, start, assistItems);
    return Some(assistItems + marks.value.toDelete);
  }

  lemma MarkedIsDeleted(st: Store, cutoff: Time, start: set<ID>, assistItems: set<ID>)
    requires st.DistinctIDs()
    requires start == OldSnapshots(st.snapshots, cutoff) + DetailsModels(st.details, cutoff)
    requires var m := MarkAll(SeenBy(st, cutoff), cutoff, start, st.backups);
      forall x :: x in assistItems <==> exists b :: Superseded(m.assists, m.recent, b) && x in AssistPieces(b)
    ensures forall x :: x in assistItems + MarkAll(SeenBy(st, cutoff), cutoff, start, st.backups).toDelete <==>
      Deleted(st, cutoff, x)
  {
    var v := SeenBy(st, cutoff);
    StoreModelsApart(st, cutoff);
    forall x
      ensures x in assistItems + MarkAll(v, cutoff, start, st.backups).toDelete <==> Deleted(st, cutoff, x)
    {
      OrphansAreMarked(v, cutoff, start, st.backups, x);
      SupersededPieces(v, cutoff, start, st.backups, x);
    }
  }
}
