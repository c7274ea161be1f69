/**
 `findBasesInSet`: the merge base and the assist base for one reason.
 */
module BaseFinder {
  import opened Wrappers
  import opened ManifestStore

  /** A backup found to be usable as a base, and its item data snapshot. */
  datatype FoundBase = FoundBase(backup: Backup, snapshot: Snapshot)

  /** `FindManifests`: the snapshots that carry all the labels. */
  function FindManifests(snaps: seq<Snapshot>, labels: set<string>): seq<Snapshot> {
    if snaps == [] then []
    else
      FindManifests(snaps[..|snaps| - 1], labels)
      + if labels <= snaps[|snaps| - 1].labels then [snaps[|snaps| - 1]] else []
  }

  lemma {:induction false} FoundManifests(snaps: seq<Snapshot>, labels: set<string>, s: Snapshot)
    ensures s in FindManifests(snaps, labels) <==> s in snaps && labels <= s.labels
  {
    if snaps != [] {
      FoundManifests(snaps[..|snaps| - 1], labels, s);
    }
  }

  function LoadSnapshot(snaps: seq<Snapshot>, id: ID): Option<Snapshot> {
    if snaps == [] then None
    else if snaps[|snaps| - 1].id == id then Some(snaps[|snaps| - 1])
    else LoadSnapshot(snaps[..|snaps| - 1], id)
  }

  function WithStableID(bs: seq<ListedBackup>, stableID: string): seq<ListedBackup> {
    if bs == [] then []
    else
      WithStableID(bs[..|bs| - 1], stableID)
      + if bs[|bs| - 1].backup.stableID == stableID then [bs[|bs| - 1]] else []
  }

  /** The model store rejects empty IDs and IDs that several models have. */
  function GetBackup(bs: seq<ListedBackup>, stableID: string): Option<Backup> {
    var found := WithStableID(bs, stableID);
    if stableID != "" && |found| == 1 && found[0].fetch.Loads? then Some(found[0].backup) else None
  }

  /** What makes a snapshot and the backup it names a base. */
  function BaseOf(man: Snapshot, bup: Option<Backup>): Option<FoundBase> {
    if man.incomplete || bup.None? || bup.value.DetailsRef() == "" || bup.value.snapshotID != man.id then None
    else Some(FoundBase(bup.value, man))
  }

  /** The complete backup a manifest belongs to, if there is one. */
  function Candidate(st: Store, meta: Snapshot): Option<FoundBase> {
    match LoadSnapshot(st.snapshots, meta.id)
    case None => None
    case Some(man) => BaseOf(man, GetBackup(st.backups, man.backupID))
  }

  lemma {:induction false} Loaded(snaps: seq<Snapshot>, s: Snapshot)
    requires forall i, j :: 0 <= i < j < |snaps| ==> snaps[i].id != snaps[j].id
    requires s in snaps
    ensures LoadSnapshot(snaps, s.id) == Some(s)
  {
    var init := snaps[..|snaps| - 1];
    if s in init {
      var i :| 0 <= i < |init| && init[i] == s;
      assert snaps[i].id != snaps[|snaps| - 1].id;
      assert forall i, j :: 0 <= i < j < |init| ==> init[i].id != init[j].id by {
        assert forall i :: 0 <= i < |init| ==> init[i] == snaps[i];
      }
      Loaded(init, s);
    }
  }

  lemma {:induction false} Listed(bs: seq<ListedBackup>, stableID: string, lb: ListedBackup)
    ensures lb in WithStableID(bs, stableID) <==> lb in bs && lb.backup.stableID == stableID
  {
    if bs != [] {
      Listed(bs[..|bs| - 1], stableID, lb);
    }
  }

  /** The only model with this stable ID is at `i`. */
  ghost predicate OnlyAt(bs: seq<ListedBackup>, stableID: string, i: int) {
    && 0 <= i < |bs| && bs[i].backup.stableID == stableID
    && forall j :: 0 <= j < |bs| && j != i ==> bs[j].backup.stableID != stableID
  }

  lemma OnlyAtMeans(bs: seq<ListedBackup>, stableID: string, i: int)
    requires OnlyAt(bs, stableID, i)
    ensures WithStableID(bs, stableID) == [bs[i]]
  {
    OneListed(bs, stableID, i, |bs|);
    assert bs[..|bs|] == bs;
  }

  lemma {:induction false} OneListed(bs: seq<ListedBackup>, stableID: string, i: int, n: nat)
    requires OnlyAt(bs, stableID, i) && n <= |bs|
    ensures WithStableID(bs[..n], stableID) == if i < n then [bs[i]] else []
  {
    if n > 0 {
      OneListed(bs, stableID, i, n - 1);
      assert bs[..n][..n - 1] == bs[..n - 1];
    }
  }

  lemma {:induction false} SingleMeansOnly(bs: seq<ListedBackup>, stableID: string) returns (i: int)
    requires |WithStableID(bs, stableID)| == 1
    ensures OnlyAt(bs, stableID, i) && WithStableID(bs, stableID) == [bs[i]]
  {
    var init, last := bs[..|bs| - 1], bs[|bs| - 1];
    if last.backup.stableID == stableID {
      i := |bs| - 1;
      forall j | 0 <= j < i
        ensures bs[j].backup.stableID != stableID
      {
        Listed(init, stableID, init[j]);
      }
    } else {
      i := SingleMeansOnly(init, stableID);
      assert forall j :: 0 <= j < |init| ==> bs[j] == init[j];
    }
  }

  ghost predicate DistinctSnapshots(snaps: seq<Snapshot>) {
    forall i, j :: 0 <= i < j < |snaps| ==> snaps[i].id != snaps[j].id
  }

  /**
   A manifest leads to a complete backup: its snapshot can be loaded and is complete, one
   model alone has the stable ID that the snapshot names, it loads, has details, and names
   this very snapshot.
   */
  ghost predicate LeadsTo(st: Store, meta: Snapshot, f: FoundBase) {
    && f.snapshot in st.snapshots && f.snapshot.id == meta.id && !f.snapshot.incomplete
    && f.backup.stableID == f.snapshot.backupID != ""
    && (exists i :: OnlyAt(st.backups, f.backup.stableID, i) && st.backups[i] == ListedBackup(f.backup, Loads))
    && f.backup.snapshotID == meta.id && (f.backup.streamStoreID != "" || f.backup.detailsID != "")
  }

  lemma CandidateMeans(st: Store, meta: Snapshot, f: FoundBase)
    requires DistinctSnapshots(st.snapshots)
    ensures Candidate(st, meta) == Some(f) <==> LeadsTo(st, meta, f)
  {
    if Candidate(st, meta) == Some(f) {
      LoadedIn(st.snapshots, meta.id);
      var i := SingleMeansOnly(st.backups, f.snapshot.backupID);
      assert st.backups[i] == ListedBackup(f.backup, Loads);
    }
    if LeadsTo(st, meta, f) {
      Loaded(st.snapshots, f.snapshot);
      var i :| OnlyAt(st.backups, f.backup.stableID, i) && st.backups[i] == ListedBackup(f.backup, Loads);
      OnlyAtMeans(st.backups, f.backup.stableID, i);
    }
  }

  lemma {:induction false} LoadedIn(snaps: seq<Snapshot>, id: ID)
    ensures LoadSnapshot(snaps, id).Some? ==>
      LoadSnapshot(snaps, id).value in snaps && LoadSnapshot(snaps, id).value.id == id
  {
    if snaps != [] {
      LoadedIn(snaps[..|snaps| - 1], id);
    }
  }

  predicate CanMerge(st: Store, meta: Snapshot) {
    Candidate(st, meta).Some? && Candidate(st, meta).value.backup.Type() == MERGE_BACKUP
  }

  predicate CanAssist(st: Store, meta: Snapshot) {
    Candidate(st, meta).Some? && Candidate(st, meta).value.backup.Type() == ASSIST_BACKUP
  }

  // ---------------------------------------------------------------------------
  // What should be selected
  // ---------------------------------------------------------------------------

  ghost predicate NewestMerge(st: Store, metas: seq<Snapshot>, m: Snapshot) {
    m in metas && CanMerge(st, m) && forall x :: x in metas && CanMerge(st, x) ==> x.modTime <= m.modTime
  }

  /** The newest assist backup, unless it is older than the newest merge backup. */
  ghost predicate NewestAssist(st: Store, metas: seq<Snapshot>, a: Snapshot) {
    && a in metas && CanAssist(st, a)
    && (forall x :: x in metas && CanAssist(st, x) ==> x.modTime <= a.modTime)
    && (forall x :: x in metas && CanMerge(st, x) ==> x.modTime <= a.modTime)
  }

  /** Every assist backup is at most as new as some merge backup. */
  ghost predicate NoUsefulAssist(st: Store, metas: seq<Snapshot>) {
    forall a :: a in metas && CanAssist(st, a) ==> exists m :: m in metas && CanMerge(st, m) && a.modTime <= m.modTime
  }

  ghost predicate SelectedMerge(st: Store, metas: seq<Snapshot>, mergeBase: Option<FoundBase>) {
    match mergeBase
    case None => forall m :: m in metas ==> !CanMerge(st, m)
    case Some(b) => exists m :: NewestMerge(st, metas, m) && Candidate(st, m) == Some(b)
  }

  ghost predicate SelectedAssist(st: Store, metas: seq<Snapshot>, assistBase: Option<FoundBase>) {
    match assistBase
    case None => NoUsefulAssist(st, metas)
    case Some(b) => exists a :: NewestAssist(st, metas, a) && Candidate(st, a) == Some(b)
  }

  ghost predicate Selected(st: Store, metas: seq<Snapshot>, mergeBase: Option<FoundBase>,
                           assistBase: Option<FoundBase>) {
    SelectedMerge(st, metas, mergeBase) && SelectedAssist(st, metas, assistBase)
  }

  // ---------------------------------------------------------------------------
  // The search
  // ---------------------------------------------------------------------------

  predicate SortedByTime(metas: seq<Snapshot>) {
    forall i, j :: 0 <= i < j < |metas| ==> metas[i].modTime <= metas[j].modTime
  }

  /** `sort.Slice`: manifests of the same time may come in any order. */
  method SortByModTime(metas: seq<Snapshot>) returns (sorted: seq<Snapshot>)
    ensures SortOf(sorted, metas)
  {
    sorted := [];
    for i := 0 to |metas|
      invariant SortedByTime(sorted)
      invariant multiset(sorted) == multiset(metas[..i])
    {
      var k := |sorted|;
      while k > 0 && metas[i].modTime < sorted[k - 1].modTime
        invariant 0 <= k <= |sorted|
        invariant forall j :: k <= j < |sorted| ==> metas[i].modTime < sorted[j].modTime
      {
        k := k - 1;
      }
      SpliceKeepsOrder(sorted, k, metas[i]);
      SpliceHolds(sorted, k, metas[i]);
      sorted := Splice(sorted, k, metas[i]);
      assert metas[..i + 1] == metas[..i] + [metas[i]];
    }
    assert metas[..|metas|] == metas;
    assert forall m :: m in sorted <==> m in multiset(sorted);
    assert forall m :: m in metas <==> m in multiset(metas);
  }

  function Splice(sorted: seq<Snapshot>, k: nat, x: Snapshot): (r: seq<Snapshot>)
    requires k <= |sorted|
    ensures |r| == |sorted| + 1
    ensures forall j :: 0 <= j < |r| ==> r[j] == if j < k then sorted[j] else if j == k then x else sorted[j - 1]
  {
    sorted[..k] + [x] + sorted[k..]
  }

  lemma SpliceKeepsOrder(sorted: seq<Snapshot>, k: nat, x: Snapshot)
    requires k <= |sorted| && SortedByTime(sorted)
    requires k > 0 ==> sorted[k - 1].modTime <= x.modTime
    requires forall j :: k <= j < |sorted| ==> x.modTime < sorted[j].modTime
    ensures SortedByTime(Splice(sorted, k, x))
  {
    var r := Splice(sorted, k, x);
    forall i, j | 0 <= i < j < |r|
      ensures r[i].modTime <= r[j].modTime
    {
    }
  }

  lemma SpliceHolds(sorted: seq<Snapshot>, k: nat, x: Snapshot)
    requires k <= |sorted|
    ensures multiset(Splice(sorted, k, x)) == multiset(sorted) + multiset{x}
  {
    assert sorted == sorted[..k] + sorted[k..];
  }

  /** Nothing at or after position `i` has been passed over wrongly. */
  ghost predicate Scanned(st: Store, metas: seq<Snapshot>, i: nat, assistBase: Option<FoundBase>)
    requires i <= |metas|
  {
    && (forall j :: i <= j < |metas| ==> !CanMerge(st, metas[j]))
    && (match assistBase
        case None => forall j :: i <= j < |metas| ==> !CanAssist(st, metas[j])
        case Some(b) => exists k :: FirstAssist(st, metas, i, k) && Candidate(st, metas[k]) == Some(b))
  }

  ghost predicate FirstAssist(st: Store, metas: seq<Snapshot>, i: nat, k: int) {
    i <= k < |metas| && CanAssist(st, metas[k]) && forall j :: k < j < |metas| ==> !CanAssist(st, metas[j])
  }

  /** A manifest that is no base, or an assist base when there is a newer one, changes nothing. */
  lemma ScanPasses(st: Store, metas: seq<Snapshot>, i: nat, assistBase: Option<FoundBase>)
    requires i < |metas| && Scanned(st, metas, i + 1, assistBase)
    requires !CanMerge(st, metas[i]) && (CanAssist(st, metas[i]) ==> assistBase.Some?)
    ensures Scanned(st, metas, i, assistBase)
  {
    if assistBase.Some? {
      var k :| FirstAssist(st, metas, i + 1, k) && Candidate(st, metas[k]) == assistBase;
      assert FirstAssist(st, metas, i, k);
    }
  }

  lemma ScanTakes(st: Store, metas: seq<Snapshot>, i: nat)
    requires i < |metas| && Scanned(st, metas, i + 1, None)
    requires !CanMerge(st, metas[i]) && CanAssist(st, metas[i])
    ensures Scanned(st, metas, i, Candidate(st, metas[i]))
  {
    assert FirstAssist(st, metas, i, i);
  }

  /** The complete backup a manifest belongs to: any missing piece rules it out. */
  method CompleteBackup(st: Store, meta: Snapshot) returns (found: Option<FoundBase>)
    ensures found == Candidate(st, meta)
    ensures DistinctSnapshots(st.snapshots) ==> forall f :: found == Some(f) <==> LeadsTo(st, meta, f)
  {
    if DistinctSnapshots(st.snapshots) {
      forall f
        ensures Candidate(st, meta) == Some(f) <==> LeadsTo(st, meta, f)
      {
        CandidateMeans(st, meta, f);
      }
    }
    var man := LoadSnapshot(st.snapshots, meta.id);
    if man.None? || man.value.incomplete {
      return None;
    }
    var bup := GetBackup(st.backups, man.value.backupID);
    if bup.None? {
      return None;
    }
    var ssid := bup.value.streamStoreID;
    if ssid == "" {
      ssid := bup.value.detailsID;
    }
    if ssid == "" {
      return None;
    }
    if bup.value.snapshotID != man.value.id {
      return None;
    }
    return Some(FoundBase(bup.value, man.value));
  }

  method FindBasesInSet(st: Store, metas: seq<Snapshot>)
    returns (mergeBase: Option<FoundBase>, assistBase: Option<FoundBase>)
    ensures Selected(st, metas, mergeBase, assistBase)
  {
    var sorted := SortByModTime(metas);
    mergeBase, assistBase := None, None;
    DifferentTypes();
    var i := |sorted|;
    while i > 0
      invariant 0 <= i <= |sorted|
      invariant mergeBase.None? && Scanned(st, sorted, i, assistBase)
    {
      i := i - 1;
      var found := CompleteBackup(st, sorted[i]);
      if found.Some? && found.value.backup.Type() == MERGE_BACKUP {
        mergeBase := found;
        StoppedAtMerge(st, metas, sorted, i, assistBase);
        return;
      }
      if found.Some? && found.value.backup.Type() == ASSIST_BACKUP && assistBase.None? {
        ScanTakes(st, sorted, i);
        assistBase := found;
      } else {
        ScanPasses(st, sorted, i, assistBase);
      }
    }
    ScannedAll(st, metas, sorted, assistBase);
  }

  lemma DifferentTypes()
    ensures ASSIST_BACKUP != MERGE_BACKUP
  {
    assert ASSIST_BACKUP[0] != MERGE_BACKUP[0];
  }

  ghost predicate SortOf(sorted: seq<Snapshot>, metas: seq<Snapshot>) {
    && SortedByTime(sorted) && multiset(sorted) == multiset(metas)
    && forall m :: m in sorted <==> m in metas
  }

  /** Where the scan has been, nothing was passed over that is newer. */
  lemma MergesAreUpTo(st: Store, metas: seq<Snapshot>, sorted: seq<Snapshot>, i: nat, assistBase: Option<FoundBase>,
                      x: Snapshot)
    requires SortOf(sorted, metas) && i < |sorted| && Scanned(st, sorted, i + 1, assistBase)
    requires x in metas && CanMerge(st, x)
    ensures x.modTime <= sorted[i].modTime
  {
    var j :| 0 <= j < |sorted| && sorted[j] == x;
  }

  lemma AssistsAreUpTo(st: Store, metas: seq<Snapshot>, sorted: seq<Snapshot>, i: nat, k: int, x: Snapshot)
    requires SortOf(sorted, metas) && i <= |sorted| && FirstAssist(st, sorted, i, k)
    requires x in metas && CanAssist(st, x)
    ensures x.modTime <= sorted[k].modTime
  {
    var j :| 0 <= j < |sorted| && sorted[j] == x;
  }

  lemma AssistIsNewest(st: Store, metas: seq<Snapshot>, sorted: seq<Snapshot>, i: nat, k: int)
    requires SortOf(sorted, metas) && i <= |sorted| && FirstAssist(st, sorted, i, k)
    requires forall x :: x in metas && CanMerge(st, x) ==> x.modTime <= sorted[k].modTime
    ensures NewestAssist(st, metas, sorted[k])
  {
    forall x | x in metas && CanAssist(st, x)
      ensures x.modTime <= sorted[k].modTime
    {
      AssistsAreUpTo(st, metas, sorted, i, k, x);
    }
  }

  /** Assist backups that were not reached are as old as the merge backup, or older. */
  lemma UnreachedAssists(st: Store, metas: seq<Snapshot>, sorted: seq<Snapshot>, i: nat)
    requires SortOf(sorted, metas) && i < |sorted| && CanMerge(st, sorted[i]) && Scanned(st, sorted, i + 1, None)
    ensures NoUsefulAssist(st, metas)
  {
    forall a | a in metas && CanAssist(st, a)
      ensures exists m :: m in metas && CanMerge(st, m) && a.modTime <= m.modTime
    {
      var j :| 0 <= j < |sorted| && sorted[j] == a;
      assert sorted[i] in metas && a.modTime <= sorted[i].modTime;
    }
  }

  lemma StoppedAtMerge(st: Store, metas: seq<Snapshot>, sorted: seq<Snapshot>, i: nat, assistBase: Option<FoundBase>)
    requires SortOf(sorted, metas)
    requires i < |sorted| && CanMerge(st, sorted[i]) && Scanned(st, sorted, i + 1, assistBase)
    ensures Selected(st, metas, Candidate(st, sorted[i]), assistBase)
  {
    forall x | x in metas && CanMerge(st, x)
      ensures x.modTime <= sorted[i].modTime
    {
      MergesAreUpTo(st, metas, sorted, i, assistBase, x);
    }
    assert sorted[i] in metas && NewestMerge(st, metas, sorted[i]);
    if assistBase.Some? {
      var k :| FirstAssist(st, sorted, i + 1, k) && Candidate(st, sorted[k]) == assistBase;
      AssistIsNewest(st, metas, sorted, i + 1, k);
    } else {
      UnreachedAssists(st, metas, sorted, i);
    }
  }

  lemma ScannedAll(st: Store, metas: seq<Snapshot>, sorted: seq<Snapshot>, assistBase: Option<FoundBase>)
    requires SortOf(sorted, metas) && Scanned(st, sorted, 0, assistBase)
    ensures Selected(st, metas, None, assistBase)
  {
    forall m | m in metas
      ensures !CanMerge(st, m)
    {
      var j :| 0 <= j < |sorted| && sorted[j] == m;
    }
    if assistBase.Some? {
      var k :| FirstAssist(st, sorted, 0, k) && Candidate(st, sorted[k]) == assistBase;
      AssistIsNewest(st, metas, sorted, 0, k);
    } else {
      forall a | a in metas
        ensures !CanAssist(st, a)
      {
        var j :| 0 <= j < |sorted| && sorted[j] == a;
      }
    }
  }
}
