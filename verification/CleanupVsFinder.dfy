/**
 Cleanup is invisible to base selection: on a tidy store the same bases are found
 before and after it, for every reason.

 Merge backups all stay.  Of the assist backups the one that the finder selects stays,
 because it is the youngest for its reason and no merge backup is younger; and nothing
 that cleanup leaves is judged differently by the finder.
 */
module CleanupVsFinder {
  import opened Wrappers
  import opened ManifestStore
  import opened Cleanup
  import opened OrphanCleanup
  import opened CleanupAgain
  import opened BaseFinder

  // ---------------------------------------------------------------------------
  // Tidy stores
  // ---------------------------------------------------------------------------

  ghost predicate IsDetails(st: Store, id: ID, modTime: Time) {
    || (exists s :: s in st.snapshots && !ItemData(s) && s.id == id && s.modTime == modTime)
    || (exists d :: d in st.details && d.id == id && d.modTime == modTime)
  }

  /** A loadable backup with a complete snapshot and details, none of them across the cutoff. */
  ghost predicate Whole(st: Store, cutoff: Time, lb: ListedBackup, s: Snapshot) {
    && lb.fetch.Loads? && lb.backup.modelID != "" && lb.backup.stableID != "" && lb.backup.DetailsRef() != "" &&
       s.id != ""
    && s in st.snapshots && ItemData(s) && !s.incomplete
    && s.id == lb.backup.snapshotID && s.backupID == lb.backup.stableID
    && (Old(lb.backup.modTime, cutoff) <==> Old(s.modTime, cutoff))
    && exists t :: IsDetails(st, lb.backup.DetailsRef(), t) && (Old(t, cutoff) <==> Old(lb.backup.modTime, cutoff))
  }

  /** Assist backups are younger than the change of where details are stored. */
  predicate StreamsDetails(b: Backup) {
    b.Type() == ASSIST_BACKUP ==> b.streamStoreID != ""
  }

  /** There are no previews, and no backups of unknown types. */
  ghost predicate NoPreviews(st: Store) {
    forall lb :: lb in st.backups ==> lb.backup.Type() == MERGE_BACKUP || lb.backup.Type() == ASSIST_BACKUP
  }

  predicate SharesNothing(a: Backup, b: Backup) {
    a.stableID != b.stableID && a.snapshotID != b.snapshotID && a.DetailsRef() != b.DetailsRef()
  }

  ghost predicate NoneShared(bs: seq<ListedBackup>) {
    forall i, j :: 0 <= i < j < |bs| ==> SharesNothing(bs[i].backup, bs[j].backup)
  }

  predicate SameOrder(a: Backup, s: Snapshot, b: Backup, t: Snapshot) {
    s.modTime != t.modTime && (s.modTime < t.modTime <==> a.creationTime < b.creationTime)
  }

  /** What the snapshot's labels say and what the backup's keys say is the same, for one reason. */
  ghost predicate KeyAgrees(b: Backup, s: Snapshot, labels: set<string>, k: string) {
    labels <= s.labels <==>
      Transferred(s, b).Some? && HasKey(Transferred(s, b).value, k)
  }

  /**
   Every backup is whole, backups share no pieces and no IDs, and snapshots and models
   were created in the same order.  Backups may be of any type.
   */
  ghost predicate Tidy(st: Store, cutoff: Time) {
    && st.DistinctIDs()
    && (forall lb :: lb in st.backups ==> StreamsDetails(lb.backup) && exists s :: Whole(st, cutoff, lb, s))
    && NoneShared(st.backups)
    && (forall a, s, b, t ::
          a in st.backups && b in st.backups && a != b && Whole(st, cutoff, a, s) && Whole(st, cutoff, b, t)
          ==> SameOrder(a.backup, s, b.backup, t))
  }

  ghost predicate KeysAgree(st: Store, cutoff: Time, labels: set<string>, k: string) {
    forall lb, s :: lb in st.backups && Whole(st, cutoff, lb, s) ==> KeyAgrees(lb.backup, s, labels, k)
  }

  // ---------------------------------------------------------------------------
  // Finder and cleanup see the same backups
  // ---------------------------------------------------------------------------

  lemma {:induction false} ListedOnce(bs: seq<ListedBackup>, stableID: string)
    requires NoneShared(bs)
    ensures |WithStableID(bs, stableID)| <= 1
  {
    if bs != [] {
      var init, last := bs[..|bs| - 1], bs[|bs| - 1];
      assert forall i :: 0 <= i < |init| ==> init[i] == bs[i];
      ListedOnce(init, stableID);
      if WithStableID(init, stableID) != [] {
        var x := WithStableID(init, stableID)[0];
        Listed(init, stableID, x);
        var i :| 0 <= i < |init| && init[i] == x;
        assert SharesNothing(bs[i].backup, last.backup);
      }
    }
  }

  lemma OnlyListed(bs: seq<ListedBackup>, lb: ListedBackup)
    requires NoneShared(bs)
    requires lb in bs
    ensures WithStableID(bs, lb.backup.stableID) == [lb]
  {
    Listed(bs, lb.backup.stableID, lb);
    ListedOnce(bs, lb.backup.stableID);
  }

  /** The candidates are the whole backups, each found at its own snapshot. */
  lemma CandidateIsWhole(st: Store, cutoff: Time, s: Snapshot)
    requires Tidy(st, cutoff) && s in st.snapshots && Candidate(st, s).Some?
    ensures exists lb ::
      lb in st.backups && Whole(st, cutoff, lb, s) && Candidate(st, s) == Some(FoundBase(lb.backup, s))
  {
    Loaded(st.snapshots, s);
    var lb := WithStableID(st.backups, s.backupID)[0];
    Listed(st.backups, s.backupID, lb);
    var t :| Whole(st, cutoff, lb, t);
    SameSnapshot(st, s, t);
  }

  lemma WholeIsCandidate(st: Store, cutoff: Time, lb: ListedBackup, s: Snapshot)
    requires Tidy(st, cutoff) && lb in st.backups && Whole(st, cutoff, lb, s)
    ensures Candidate(st, s) == Some(FoundBase(lb.backup, s))
  {
    Loaded(st.snapshots, s);
    OnlyListed(st.backups, lb);
  }

  /** An old whole backup is complete in the eyes of cleanup. */
  lemma WholeIsComplete(st: Store, cutoff: Time, lb: ListedBackup, s: Snapshot)
    requires Tidy(st, cutoff) && lb in st.backups && Whole(st, cutoff, lb, s)
    ensures Complete(SeenBy(st, cutoff), cutoff, lb) <==> Old(lb.backup.modTime, cutoff)
    ensures Old(lb.backup.modTime, cutoff) ==> Tagged(SeenBy(st, cutoff), lb) == Transferred(s, lb.backup)
  {
    ItemSnapshotsAre(st.snapshots, cutoff, s.id);
    if Old(lb.backup.modTime, cutoff) {
      SameSnapshot(st, s, SeenBy(st, cutoff).data[s.id]);
    }
  }

  /** Backups that share no snapshot and no details share no piece. */
  lemma PiecesApart(v: View, a: Backup, b: Backup)
    requires a.snapshotID != b.snapshotID && a.DetailsRef() != b.DetailsRef() && a.modelID != b.modelID
    requires a.snapshotID in v.data && b.snapshotID in v.data && a.DetailsRef() in v.deets && b.DetailsRef() in v.deets
    requires a.snapshotID !in v.deets && b.snapshotID !in v.deets
    requires a.modelID !in v.data && a.modelID !in v.deets && b.modelID !in v.data && b.modelID !in v.deets
    requires b.streamStoreID != "" || "" !in Pieces(a)
    ensures Pieces(a) !! AssistPieces(b)
  {
  }

  lemma ListedApart(st: Store, cutoff: Time, i: int, j: int)
    requires Tidy(st, cutoff) && 0 <= i < |st.backups| && 0 <= j < |st.backups| && i != j
    ensures SharesNothing(st.backups[i].backup, st.backups[j].backup) && OtherModel(st.backups[i], st.backups[j])
    ensures Unseen(SeenBy(st, cutoff), st.backups[i])
  {
    StoreModelsApart(st, cutoff);
    if i < j {
      assert SharesNothing(st.backups[i].backup, st.backups[j].backup);
    } else {
      assert SharesNothing(st.backups[j].backup, st.backups[i].backup) && OtherModel(st.backups[j], st.backups[i]);
    }
  }

  lemma TidySharesNoPieces(st: Store, cutoff: Time, i: int, j: int)
    requires Tidy(st, cutoff)
    ensures !SharesPieces(st.backups, SeenBy(st, cutoff), cutoff, i, j)
  {
    var bs, v := st.backups, SeenBy(st, cutoff);
    if 0 <= i < |bs| && Complete(v, cutoff, bs[i]) && SupersededAt(bs, v, cutoff, j) && i != j {
      ListedApart(st, cutoff, i, j);
      ListedApart(st, cutoff, j, i);
      KindsDiffer(st, cutoff, bs[i].backup.snapshotID);
      KindsDiffer(st, cutoff, bs[j].backup.snapshotID);
      PiecesApart(v, bs[i].backup, bs[j].backup);
    }
  }

  lemma TidyIsCleanlySplit(st: Store, cutoff: Time)
    requires Tidy(st, cutoff)
    ensures CleanlySplit(st, cutoff)
  {
    forall i, j
      ensures !SharesPieces(st.backups, SeenBy(st, cutoff), cutoff, i, j)
    {
      TidySharesNoPieces(st, cutoff, i, j);
    }
    forall j | SupersededAt(st.backups, SeenBy(st, cutoff), cutoff, j)
      ensures DetailsSettled(st.backups, SeenBy(st, cutoff), cutoff, j)
    {
    }
  }

  lemma AssistIsNotMerge(b: Backup)
    ensures b.TaggedAssist() ==> b.Type() != MERGE_BACKUP
    ensures b.Type() == MERGE_BACKUP || b.Type() == ASSIST_BACKUP ==> b.TaggedAssist() || b.Type() == MERGE_BACKUP
    ensures b.Type() == ASSIST_BACKUP ==> b.TaggedAssist()
  {
    DifferentTypes();
    assert MERGE_BACKUP != "" && ASSIST_BACKUP != "";
  }

  // ---------------------------------------------------------------------------
  // What stays
  // ---------------------------------------------------------------------------

  /** Backups whose pieces are young, and old ones that are not superseded, stay whole. */
  lemma StaysOrGoes(st: Store, cutoff: Time, gone: set<ID>, i: int, s: Snapshot)
    requires Tidy(st, cutoff) && IsDeleted(st, cutoff, gone)
    requires 0 <= i < |st.backups| && Whole(st, cutoff, st.backups[i], s)
    ensures s.id in gone <==> SupersededAt(st.backups, SeenBy(st, cutoff), cutoff, i)
    ensures st.backups[i].backup.modelID in gone <==> SupersededAt(st.backups, SeenBy(st, cutoff), cutoff, i)
  {
    var lb, v := st.backups[i], SeenBy(st, cutoff);
    WholeIsComplete(st, cutoff, lb, s);
    TidyIsCleanlySplit(st, cutoff);
    if Old(lb.backup.modTime, cutoff) {
      PiecesGoTogether(st, cutoff, gone, i);
    } else {
      YoungStays(st, cutoff, i, s);
    }
  }

  lemma YoungStays(st: Store, cutoff: Time, i: int, s: Snapshot)
    requires Tidy(st, cutoff) && 0 <= i < |st.backups| && Whole(st, cutoff, st.backups[i], s)
    requires !Old(st.backups[i].backup.modTime, cutoff)
    ensures !Deleted(st, cutoff, s.id) && !Deleted(st, cutoff, st.backups[i].backup.modelID)
  {
    DeletedIsOld(st, cutoff, s.id);
    DeletedIsOld(st, cutoff, st.backups[i].backup.modelID);
    YoungModelNotOld(st, cutoff, i);
  }

  lemma YoungModelNotOld(st: Store, cutoff: Time, i: int)
    requires st.DistinctIDs() && 0 <= i < |st.backups| && !Old(st.backups[i].backup.modTime, cutoff)
    ensures !OldEntry(st, cutoff, st.backups[i].backup.modelID)
  {
    assert st.backups[i] in st.backups;
    forall j
      ensures !OldModel(st.backups, cutoff, j, st.backups[i].backup.modelID)
    {
      assert 0 <= j < i ==> st.backups[j].backup.modelID != st.backups[i].backup.modelID;
      assert i < j < |st.backups| ==> st.backups[i].backup.modelID != st.backups[j].backup.modelID;
    }
  }

  // ---------------------------------------------------------------------------
  // The same candidates, except superseded assist backups
  // ---------------------------------------------------------------------------

  /** The model of a snapshot that stays is the same as before, or had been of no use. */
  lemma ModelBefore(st: Store, cutoff: Time, gone: set<ID>, s: Snapshot)
    requires Tidy(st, cutoff) && IsDeleted(st, cutoff, gone) && s in st.snapshots && s.id !in gone
    ensures var before, now := GetBackup(st.backups, s.backupID), GetBackup(KeepBackups(st.backups, gone), s.backupID);
      now == before || (now.None? && Candidate(st, s).None?)
  {
    if GetBackup(KeepBackups(st.backups, gone), s.backupID).Some? {
      GetBackupBefore(st, cutoff, gone, s.backupID);
    }
    if Candidate(st, s).Some? {
      CandidateIsWhole(st, cutoff, s);
      var lb :| lb in st.backups && Whole(st, cutoff, lb, s) && Candidate(st, s) == Some(FoundBase(lb.backup, s));
      var i :| 0 <= i < |st.backups| && st.backups[i] == lb;
      StaysOrGoes(st, cutoff, gone, i, s);
      GetBackupAfter(st, cutoff, gone, lb);
    }
  }

  lemma CandidateBefore(st: Store, cutoff: Time, gone: set<ID>, s: Snapshot)
    requires Tidy(st, cutoff) && IsDeleted(st, cutoff, gone) && s in Without(st, gone).snapshots
    ensures Candidate(Without(st, gone), s) == Candidate(st, s)
  {
    KeptSnapshots(st.snapshots, gone, s);
    Loaded(st.snapshots, s);
    KeptLoaded(st, gone, s);
    ModelBefore(st, cutoff, gone, s);
  }

  lemma {:induction false} KeptDistinct(snaps: seq<Snapshot>, gone: set<ID>)
    requires forall i, j :: 0 <= i < j < |snaps| ==> snaps[i].id != snaps[j].id
    ensures var kept := KeepSnapshots(snaps, gone);
      forall i, j :: 0 <= i < j < |kept| ==> kept[i].id != kept[j].id
  {
    if snaps != [] {
      var init, last := snaps[..|snaps| - 1], snaps[|snaps| - 1];
      assert forall i :: 0 <= i < |init| ==> init[i] == snaps[i];
      KeptDistinct(init, gone);
      var kept := KeepSnapshots(init, gone);
      forall i | 0 <= i < |kept|
        ensures kept[i].id != last.id
      {
        KeptSnapshots(init, gone, kept[i]);
      }
      DistinctSnoc(kept, last);
      assert kept + [] == kept;
    }
  }

  lemma DistinctSnoc(snaps: seq<Snapshot>, s: Snapshot)
    requires forall i, j :: 0 <= i < j < |snaps| ==> snaps[i].id != snaps[j].id
    requires forall i :: 0 <= i < |snaps| ==> snaps[i].id != s.id
    ensures var all := snaps + [s];
      forall i, j :: 0 <= i < j < |all| ==> all[i].id != all[j].id
  {
  }

  lemma KeptLoaded(st: Store, gone: set<ID>, s: Snapshot)
    requires st.DistinctIDs() && s in KeepSnapshots(st.snapshots, gone)
    ensures LoadSnapshot(KeepSnapshots(st.snapshots, gone), s.id) == Some(s)
  {
    KeptDistinct(st.snapshots, gone);
    Loaded(KeepSnapshots(st.snapshots, gone), s);
  }

  lemma {:induction false} KeptWithStableID(bs: seq<ListedBackup>, gone: set<ID>, stableID: string)
    ensures WithStableID(KeepBackups(bs, gone), stableID) == KeepBackups(WithStableID(bs, stableID), gone)
  {
    if bs != [] {
      var init, last := bs[..|bs| - 1], bs[|bs| - 1];
      KeptWithStableID(init, gone, stableID);
      WithStableIDSnoc(KeepBackups(init, gone), last, stableID);
      KeepSnoc(WithStableID(init, stableID), last, gone);
    }
  }

  lemma WithStableIDSnoc(bs: seq<ListedBackup>, lb: ListedBackup, stableID: string)
    ensures WithStableID(bs + [lb], stableID) ==
      WithStableID(bs, stableID) + if lb.backup.stableID == stableID then [lb] else []
    ensures bs + [] == bs
  {
    assert (bs + [lb])[..|bs|] == bs;
  }

  lemma KeepSnoc(bs: seq<ListedBackup>, lb: ListedBackup, gone: set<ID>)
    ensures KeepBackups(bs + [lb], gone) == KeepBackups(bs, gone) + if lb.backup.modelID in gone then [] else [lb]
    ensures bs + [] == bs
  {
    assert (bs + [lb])[..|bs|] == bs;
  }

  /** No backup appears that was not found before. */
  lemma GetBackupBefore(st: Store, cutoff: Time, gone: set<ID>, stableID: string)
    requires Tidy(st, cutoff) && GetBackup(KeepBackups(st.backups, gone), stableID).Some?
    ensures GetBackup(st.backups, stableID) == GetBackup(KeepBackups(st.backups, gone), stableID)
  {
    var kept := KeepBackups(st.backups, gone);
    var lb := WithStableID(kept, stableID)[0];
    Listed(kept, stableID, lb);
    KeptBackups(st.backups, gone, lb);
    OnlyListed(st.backups, lb);
  }

  lemma GetBackupAfter(st: Store, cutoff: Time, gone: set<ID>, lb: ListedBackup)
    requires Tidy(st, cutoff) && lb in st.backups && lb.backup.modelID !in gone
    ensures GetBackup(KeepBackups(st.backups, gone), lb.backup.stableID) == GetBackup(st.backups, lb.backup.stableID)
  {
    OnlyListed(st.backups, lb);
    KeptWithStableID(st.backups, gone, lb.backup.stableID);
    KeepSnoc([], lb, gone);
  }

  /** Candidates of the same time are one. */
  lemma TimesDiffer(st: Store, cutoff: Time, s: Snapshot, t: Snapshot)
    requires Tidy(st, cutoff) && s in st.snapshots && t in st.snapshots
    requires Candidate(st, s).Some? && Candidate(st, t).Some? && s.modTime == t.modTime
    ensures s == t
  {
    CandidateIsWhole(st, cutoff, s);
    CandidateIsWhole(st, cutoff, t);
    var a :| a in st.backups && Whole(st, cutoff, a, s) && Candidate(st, s) == Some(FoundBase(a.backup, s));
    var b :| b in st.backups && Whole(st, cutoff, b, t) && Candidate(st, t) == Some(FoundBase(b.backup, t));
    assert a != b ==> SameOrder(a.backup, s, b.backup, t);
    SameSnapshot(st, s, t);
  }

  lemma MergeStays(st: Store, cutoff: Time, gone: set<ID>, s: Snapshot)
    requires Tidy(st, cutoff) && IsDeleted(st, cutoff, gone) && s in st.snapshots && CanMerge(st, s)
    ensures s in Without(st, gone).snapshots
  {
    CandidateIsWhole(st, cutoff, s);
    var lb :| lb in st.backups && Whole(st, cutoff, lb, s) && Candidate(st, s) == Some(FoundBase(lb.backup, s));
    var i :| 0 <= i < |st.backups| && st.backups[i] == lb;
    StaysOrGoes(st, cutoff, gone, i, s);
    AssistIsNotMerge(lb.backup);
    KeptSnapshots(st.snapshots, gone, s);
  }

  // ---------------------------------------------------------------------------
  // The newest assist backup is not superseded
  // ---------------------------------------------------------------------------

  /** A complete backup with key `k` is among the manifests the finder searches. */
  lemma KeyedIsSearched(st: Store, cutoff: Time, labels: set<string>, k: string, j: int, s: Snapshot)
    requires Tidy(st, cutoff) && KeysAgree(st, cutoff, labels, k)
    requires 0 <= j < |st.backups| && Whole(st, cutoff, st.backups[j], s)
    requires Complete(SeenBy(st, cutoff), cutoff, st.backups[j]) && k in KeysOf(SeenBy(st, cutoff), st.backups[j])
    ensures s in FindManifests(st.snapshots, labels)
    ensures Candidate(st, s) == Some(FoundBase(st.backups[j].backup, s))
  {
    var lb := st.backups[j];
    WholeIsComplete(st, cutoff, lb, s);
    WholeIsCandidate(st, cutoff, lb, s);
    FoundManifests(st.snapshots, labels, s);
    assert KeyAgrees(lb.backup, s, labels, k);
  }

  lemma AssistsAreOlder(st: Store, cutoff: Time, labels: set<string>, k: string, a: Snapshot, i: int, j: int)
    requires Tidy(st, cutoff) && KeysAgree(st, cutoff, labels, k)
    requires NewestAssist(st, FindManifests(st.snapshots, labels), a)
    requires 0 <= i < |st.backups| && Whole(st, cutoff, st.backups[i], a)
    requires AssistFor(st.backups, SeenBy(st, cutoff), cutoff, j, k)
    ensures !Beats(st.backups, j, i)
  {
    if i != j {
      var bs := st.backups;
      assert bs[j] in bs;
      var s :| Whole(st, cutoff, bs[j], s);
      KeyedIsSearched(st, cutoff, labels, k, j, s);
      AssistIsNotMerge(bs[j].backup);
      ListedApart(st, cutoff, i, j);
      assert CanAssist(st, s);
      assert SameOrder(bs[i].backup, a, bs[j].backup, s) && SameOrder(bs[j].backup, s, bs[i].backup, a);
    }
  }

  lemma MergesAreOlder(st: Store, cutoff: Time, labels: set<string>, k: string, a: Snapshot, i: int, j: int)
    requires Tidy(st, cutoff) && KeysAgree(st, cutoff, labels, k) && NoPreviews(st)
    requires NewestAssist(st, FindManifests(st.snapshots, labels), a)
    requires 0 <= i < |st.backups| && Whole(st, cutoff, st.backups[i], a)
    requires MergeFor(st.backups, SeenBy(st, cutoff), cutoff, j, k)
    ensures st.backups[j].backup.creationTime <= st.backups[i].backup.creationTime
  {
    if i != j {
      var bs := st.backups;
      assert bs[j] in bs;
      var s :| Whole(st, cutoff, bs[j], s);
      KeyedIsSearched(st, cutoff, labels, k, j, s);
      AssistIsNotMerge(bs[j].backup);
      ListedApart(st, cutoff, i, j);
      assert CanMerge(st, s);
      assert SameOrder(bs[i].backup, a, bs[j].backup, s);
    }
  }

  lemma NewestIsNotOutdated(st: Store, cutoff: Time, labels: set<string>, k: string, a: Snapshot, i: int)
    requires Tidy(st, cutoff) && KeysAgree(st, cutoff, labels, k) && NoPreviews(st)
    requires NewestAssist(st, FindManifests(st.snapshots, labels), a)
    requires 0 <= i < |st.backups| && Whole(st, cutoff, st.backups[i], a)
    ensures !Outdated(st.backups, SeenBy(st, cutoff), cutoff, i, k)
  {
    var bs, v := st.backups, SeenBy(st, cutoff);
    forall j | AssistFor(bs, v, cutoff, j, k)
      ensures !Beats(bs, j, i)
    {
      AssistsAreOlder(st, cutoff, labels, k, a, i, j);
    }
    forall j | MergeFor(bs, v, cutoff, j, k)
      ensures bs[j].backup.creationTime <= bs[i].backup.creationTime
    {
      MergesAreOlder(st, cutoff, labels, k, a, i, j);
    }
  }

  /** A backup is superseded only if it is outdated for each of its keys. */
  lemma KeyedSuperseded(st: Store, cutoff: Time, labels: set<string>, k: string, a: Snapshot, i: int)
    requires Tidy(st, cutoff) && KeysAgree(st, cutoff, labels, k) && labels <= a.labels
    requires 0 <= i < |st.backups| && Whole(st, cutoff, st.backups[i], a)
    requires SupersededAt(st.backups, SeenBy(st, cutoff), cutoff, i)
    ensures Outdated(st.backups, SeenBy(st, cutoff), cutoff, i, k)
  {
    assert KeyAgrees(st.backups[i].backup, a, labels, k);
    WholeIsComplete(st, cutoff, st.backups[i], a);
  }

  lemma SelectedAssistStays(st: Store, cutoff: Time, gone: set<ID>, labels: set<string>, k: string, a: Snapshot)
    requires Tidy(st, cutoff) && IsDeleted(st, cutoff, gone) && KeysAgree(st, cutoff, labels, k) && NoPreviews(st)
    requires NewestAssist(st, FindManifests(st.snapshots, labels), a)
    ensures a in Without(st, gone).snapshots
  {
    FoundManifests(st.snapshots, labels, a);
    CandidateIsWhole(st, cutoff, a);
    var lb :| lb in st.backups && Whole(st, cutoff, lb, a) && Candidate(st, a) == Some(FoundBase(lb.backup, a));
    var i :| 0 <= i < |st.backups| && st.backups[i] == lb;
    NewestIsNotOutdated(st, cutoff, labels, k, a, i);
    if SupersededAt(st.backups, SeenBy(st, cutoff), cutoff, i) {
      KeyedSuperseded(st, cutoff, labels, k, a, i);
    }
    StaysOrGoes(st, cutoff, gone, i, a);
    KeptSnapshots(st.snapshots, gone, a);
  }

  // ---------------------------------------------------------------------------
  // Main theorem
  // ---------------------------------------------------------------------------

  /** What the finder searches after cleanup, it also searched before, and judges the same. */
  lemma SearchedBefore(st: Store, cutoff: Time, gone: set<ID>, labels: set<string>, s: Snapshot)
    requires Tidy(st, cutoff) && IsDeleted(st, cutoff, gone)
    ensures s in FindManifests(Without(st, gone).snapshots, labels) ==>
      s in st.snapshots && s in FindManifests(st.snapshots, labels) &&
        Candidate(Without(st, gone), s) == Candidate(st, s)
    ensures s in FindManifests(st.snapshots, labels) && s in Without(st, gone).snapshots ==>
      s in FindManifests(Without(st, gone).snapshots, labels)
  {
    FoundManifests(st.snapshots, labels, s);
    FoundManifests(Without(st, gone).snapshots, labels, s);
    KeptSnapshots(st.snapshots, gone, s);
    if s in Without(st, gone).snapshots {
      CandidateBefore(st, cutoff, gone, s);
    }
  }

  lemma MergeCandidatesStay(st: Store, cutoff: Time, gone: set<ID>, labels: set<string>, s: Snapshot)
    requires Tidy(st, cutoff) && IsDeleted(st, cutoff, gone)
    requires s in FindManifests(st.snapshots, labels) && CanMerge(st, s)
    ensures s in FindManifests(Without(st, gone).snapshots, labels) && CanMerge(Without(st, gone), s)
  {
    FoundManifests(st.snapshots, labels, s);
    MergeStays(st, cutoff, gone, s);
    SearchedBefore(st, cutoff, gone, labels, s);
  }

  lemma SameMergeBase(st: Store, cutoff: Time, gone: set<ID>, labels: set<string>, m: Option<FoundBase>,
                      m': Option<FoundBase>)
    requires Tidy(st, cutoff) && IsDeleted(st, cutoff, gone)
    requires SelectedMerge(st, FindManifests(st.snapshots, labels), m)
    requires SelectedMerge(Without(st, gone), FindManifests(Without(st, gone).snapshots, labels), m')
    ensures m == m'
  {
    var st' := Without(st, gone);
    var metas, metas' := FindManifests(st.snapshots, labels), FindManifests(st'.snapshots, labels);
    if m.Some? {
      var s :| NewestMerge(st, metas, s) && Candidate(st, s) == m;
      MergeCandidatesStay(st, cutoff, gone, labels, s);
    }
    if m'.Some? {
      var s' :| NewestMerge(st', metas', s') && Candidate(st', s') == m';
      SearchedBefore(st, cutoff, gone, labels, s');
      assert CanMerge(st, s');
      if m.Some? {
        var s :| NewestMerge(st, metas, s) && Candidate(st, s) == m;
        MergeCandidatesStay(st, cutoff, gone, labels, s);
        FoundManifests(st.snapshots, labels, s);
        TimesDiffer(st, cutoff, s, s');
      }
    }
  }

  /** An assist backup that is newest after the cleanup is at least as new as any merge backup before. */
  lemma MergesBefore(st: Store, cutoff: Time, gone: set<ID>, labels: set<string>, s': Snapshot, x: Snapshot)
    requires Tidy(st, cutoff) && IsDeleted(st, cutoff, gone)
    requires NewestAssist(Without(st, gone), FindManifests(Without(st, gone).snapshots, labels), s')
    requires x in FindManifests(st.snapshots, labels) && CanMerge(st, x)
    ensures x.modTime < s'.modTime
  {
    SearchedBefore(st, cutoff, gone, labels, s');
    MergeCandidatesStay(st, cutoff, gone, labels, x);
    FoundManifests(st.snapshots, labels, x);
    DifferentTypes();
    if x.modTime == s'.modTime {
      TimesDiffer(st, cutoff, x, s');
    }
  }

  lemma SelectedAssistFound(st: Store, cutoff: Time, gone: set<ID>, labels: set<string>, s: Snapshot)
    requires Tidy(st, cutoff) && IsDeleted(st, cutoff, gone)
    requires NewestAssist(st, FindManifests(st.snapshots, labels), s) && s in Without(st, gone).snapshots
    ensures NewestAssist(Without(st, gone), FindManifests(Without(st, gone).snapshots, labels), s)
  {
    var st' := Without(st, gone);
    SearchedBefore(st, cutoff, gone, labels, s);
    forall x | x in FindManifests(st'.snapshots, labels)
      ensures x in FindManifests(st.snapshots, labels) && Candidate(st', x) == Candidate(st, x)
    {
      SearchedBefore(st, cutoff, gone, labels, x);
    }
  }

  /** An assist backup that is newest after the cleanup is useful, after it and before. */
  lemma UsefulAssist(st: Store, cutoff: Time, gone: set<ID>, labels: set<string>, s: Snapshot)
    requires Tidy(st, cutoff) && IsDeleted(st, cutoff, gone)
    requires NewestAssist(Without(st, gone), FindManifests(Without(st, gone).snapshots, labels), s)
    ensures !NoUsefulAssist(st, FindManifests(st.snapshots, labels))
    ensures !NoUsefulAssist(Without(st, gone), FindManifests(Without(st, gone).snapshots, labels))
  {
    var st' := Without(st, gone);
    forall x | x in FindManifests(st.snapshots, labels) && CanMerge(st, x)
      ensures x.modTime < s.modTime
    {
      MergesBefore(st, cutoff, gone, labels, s, x);
    }
    forall x | x in FindManifests(st'.snapshots, labels)
      ensures x in FindManifests(st.snapshots, labels) && Candidate(st', x) == Candidate(st, x)
    {
      SearchedBefore(st, cutoff, gone, labels, x);
    }
    assert CanAssist(st, s);
  }

  /** Without an assist base before, there is none after; with one that stays, it is the same. */
  lemma AssistAnswerStays(st: Store, cutoff: Time, gone: set<ID>, labels: set<string>,
                          a: Option<FoundBase>, a': Option<FoundBase>)
    requires Tidy(st, cutoff) && IsDeleted(st, cutoff, gone)
    requires SelectedAssist(st, FindManifests(st.snapshots, labels), a)
    requires SelectedAssist(Without(st, gone), FindManifests(Without(st, gone).snapshots, labels), a')
    requires a.Some? ==> a.value.snapshot in Without(st, gone).snapshots
    ensures a == a'
  {
    if a.Some? {
      var s :| NewestAssist(st, FindManifests(st.snapshots, labels), s) && Candidate(st, s) == a;
      CandidateSnapshot(st, cutoff, labels, s);
      AssistIsFoundAgain(st, cutoff, gone, labels, s, a');
    } else if a'.Some? {
      var s' :| NewestAssist(Without(st, gone), FindManifests(Without(st, gone).snapshots, labels), s')
                && Candidate(Without(st, gone), s') == a';
      UsefulAssist(st, cutoff, gone, labels, s');
    }
  }

  lemma AssistIsFoundAgain(st: Store, cutoff: Time, gone: set<ID>, labels: set<string>, s: Snapshot,
                           a': Option<FoundBase>)
    requires Tidy(st, cutoff) && IsDeleted(st, cutoff, gone)
    requires NewestAssist(st, FindManifests(st.snapshots, labels), s) && s in Without(st, gone).snapshots
    requires SelectedAssist(Without(st, gone), FindManifests(Without(st, gone).snapshots, labels), a')
    ensures a' == Candidate(st, s)
  {
    var st' := Without(st, gone);
    var metas' := FindManifests(st'.snapshots, labels);
    SelectedAssistFound(st, cutoff, gone, labels, s);
    UsefulAssist(st, cutoff, gone, labels, s);
    SearchedBefore(st, cutoff, gone, labels, s);
    var s' :| NewestAssist(st', metas', s') && Candidate(st', s') == a';
    SearchedBefore(st, cutoff, gone, labels, s');
    TimesDiffer(st, cutoff, s, s');
  }

  lemma CandidateSnapshot(st: Store, cutoff: Time, labels: set<string>, s: Snapshot)
    requires Tidy(st, cutoff) && s in FindManifests(st.snapshots, labels) && Candidate(st, s).Some?
    ensures s in st.snapshots && Candidate(st, s).value.snapshot == s
  {
    FoundManifests(st.snapshots, labels, s);
    CandidateIsWhole(st, cutoff, s);
  }

  lemma SameAssistBase(st: Store, cutoff: Time, gone: set<ID>, labels: set<string>, k: string,
                       a: Option<FoundBase>, a': Option<FoundBase>)
    requires Tidy(st, cutoff) && IsDeleted(st, cutoff, gone) && KeysAgree(st, cutoff, labels, k) && NoPreviews(st)
    requires SelectedAssist(st, FindManifests(st.snapshots, labels), a)
    requires SelectedAssist(Without(st, gone), FindManifests(Without(st, gone).snapshots, labels), a')
    ensures a == a'
  {
    if a.Some? {
      var s :| NewestAssist(st, FindManifests(st.snapshots, labels), s) && Candidate(st, s) == a;
      CandidateSnapshot(st, cutoff, labels, s);
      SelectedAssistStays(st, cutoff, gone, labels, k, s);
    }
    AssistAnswerStays(st, cutoff, gone, labels, a, a');
  }

  ghost predicate AnswersWith(st: Store, found: Option<FoundBase>, i: int) {
    0 <= i < |st.backups| && found.Some? && found.value.backup == st.backups[i].backup
  }

  /**
   With previews: the assist answer is the same before and after cleanup exactly if it is not
   a backup that, for each of its keys, is older than another assist backup or than any backup
   of another type.
   */
  lemma AssistAnswerIff(st: Store, cutoff: Time, gone: set<ID>, labels: set<string>,
                        a: Option<FoundBase>, a': Option<FoundBase>)
    requires Tidy(st, cutoff) && IsDeleted(st, cutoff, gone)
    requires SelectedAssist(st, FindManifests(st.snapshots, labels), a)
    requires SelectedAssist(Without(st, gone), FindManifests(Without(st, gone).snapshots, labels), a')
    ensures a == a' <==>
      forall i :: AnswersWith(st, a, i) ==> !SupersededAt(st.backups, SeenBy(st, cutoff), cutoff, i)
  {
    if a.Some? {
      var s :| NewestAssist(st, FindManifests(st.snapshots, labels), s) && Candidate(st, s) == a;
      var i := AssistGoesIff(st, cutoff, gone, labels, s);
      if a' == a {
        var s' :| NewestAssist(Without(st, gone), FindManifests(Without(st, gone).snapshots, labels), s')
                  && Candidate(Without(st, gone), s') == a';
        SearchedBefore(st, cutoff, gone, labels, s');
        FoundManifests(Without(st, gone).snapshots, labels, s');
        CandidateSnapshot(st, cutoff, labels, s);
        CandidateSnapshot(st, cutoff, labels, s');
        assert s' == s;
      } else if s in Without(st, gone).snapshots {
        CandidateSnapshot(st, cutoff, labels, s);
        AssistAnswerStays(st, cutoff, gone, labels, a, a');
      }
    } else {
      AssistAnswerStays(st, cutoff, gone, labels, a, a');
    }
  }

  /** The snapshot of a selected assist backup stays exactly if the backup is not superseded. */
  lemma AssistGoesIff(st: Store, cutoff: Time, gone: set<ID>, labels: set<string>, s: Snapshot) returns (i: int)
    requires Tidy(st, cutoff) && IsDeleted(st, cutoff, gone)
    requires NewestAssist(st, FindManifests(st.snapshots, labels), s)
    ensures AnswersWith(st, Candidate(st, s), i) && forall j :: AnswersWith(st, Candidate(st, s), j) ==> j == i
    ensures s in Without(st, gone).snapshots <==> !SupersededAt(st.backups, SeenBy(st, cutoff), cutoff, i)
  {
    FoundManifests(st.snapshots, labels, s);
    CandidateIsWhole(st, cutoff, s);
    var lb :| lb in st.backups && Whole(st, cutoff, lb, s) && Candidate(st, s) == Some(FoundBase(lb.backup, s));
    i :| 0 <= i < |st.backups| && st.backups[i] == lb;
    StaysOrGoes(st, cutoff, gone, i, s);
    KeptSnapshots(st.snapshots, gone, s);
  }

  /**
   Cleanup is invisible to base selection.  `labels` are the tags the finder searches
   for a reason, `k` is the key cleanup uses for it.
   */
  lemma CleanupIsInvisible(st: Store, cutoff: Time, gone: set<ID>, labels: set<string>, k: string,
                           m: Option<FoundBase>, a: Option<FoundBase>, m': Option<FoundBase>, a': Option<FoundBase>)
    requires Tidy(st, cutoff) && IsDeleted(st, cutoff, gone) && KeysAgree(st, cutoff, labels, k) && NoPreviews(st)
    requires Selected(st, FindManifests(st.snapshots, labels), m, a)
    requires Selected(Without(st, gone), FindManifests(Without(st, gone).snapshots, labels), m', a')
    ensures m == m' && a == a'
  {
    SameMergeBase(st, cutoff, gone, labels, m, m');
    SameAssistBase(st, cutoff, gone, labels, k, a, a');
  }
}
