/**
 Previews: cleanup takes them for merge backups, the finder does not.

 So with a later preview of the same kind, the finder still selects an assist backup that
 cleanup already counts as superseded and deletes.  The stores here are tidy, and have
 nothing but one assist backup and one preview.
 */
module CleanupPreviews {
  import opened Wrappers
  import opened ManifestStore
  import opened Cleanup
  import opened OrphanCleanup
  import opened CleanupAgain
  import opened BaseFinder
  import opened CleanupVsFinder
  import opened CleanupHypotheses

  /** A backup with the pieces it was written with. */
  datatype Entry = Entry(snapshot: Snapshot, details: DetailsModel, backup: Backup)

  function AsListed(e: Entry): ListedBackup {
    ListedBackup(e.backup, Loads)
  }

  function StoreOf(a: Entry, p: Entry): Store {
    Store([a.snapshot, p.snapshot], [a.details, p.details], [AsListed(a), AsListed(p)])
  }

  /** A complete backup of one resource and kind, with all its pieces older than the cutoff. */
  ghost predicate OldBackup(e: Entry, cutoff: Time, tenant: string, kind: string) {
    var s, d, b := e.snapshot, e.details, e.backup;
    && s.modTime < cutoff && d.modTime < cutoff && b.modTime < cutoff
    && !s.incomplete && s.id == b.snapshotID && s.backupID == b.stableID && d.id == b.streamStoreID
    && s.id != "" && d.id != "" && b.modelID != "" && b.stableID != ""
    && CanonicallyTagged(b, s, tenant, {kind})
  }

  predicate AllDiffer(ids: seq<ID>) {
    forall i, j :: 0 <= i < j < |ids| ==> ids[i] != ids[j]
  }

  /** Preview `p` was made later than assist backup `a`, for the same resource and kind. */
  ghost predicate PreviewLater(a: Entry, p: Entry, cutoff: Time, tenant: string, kind: string) {
    && OldBackup(a, cutoff, tenant, kind) && OldBackup(p, cutoff, tenant, kind)
    && a.backup.resource == p.backup.resource && a.backup.stableID != p.backup.stableID
    && AllDiffer([a.snapshot.id, a.details.id, a.backup.modelID, p.snapshot.id, p.details.id, p.backup.modelID])
    && a.backup.Type() == ASSIST_BACKUP && p.backup.Type() == PREVIEW_BACKUP
    && a.snapshot.modTime < p.snapshot.modTime && a.backup.creationTime < p.backup.creationTime
    && NamedApart({a.backup.resource}, {kind})
  }

  lemma EntryIsWhole(a: Entry, p: Entry, e: Entry, cutoff: Time, tenant: string, kind: string)
    requires PreviewLater(a, p, cutoff, tenant, kind) && (e == a || e == p)
    ensures Whole(StoreOf(a, p), cutoff, AsListed(e), e.snapshot)
  {
    var st := StoreOf(a, p);
    assert e.details in st.details && e.snapshot in st.snapshots;
    assert IsDetails(st, e.details.id, e.details.modTime);
    assert TagKey(TAG_BACKUP_CATEGORY) in e.snapshot.labels;
  }

  lemma IDsDiffer(a: Entry, p: Entry, cutoff: Time, tenant: string, kind: string)
    requires PreviewLater(a, p, cutoff, tenant, kind)
    ensures StoreOf(a, p).DistinctIDs() && NoneShared(StoreOf(a, p).backups)
  {
    var ids := [a.snapshot.id, a.details.id, a.backup.modelID, p.snapshot.id, p.details.id, p.backup.modelID];
    assert ids[0] != ids[1] && ids[0] != ids[2] && ids[0] != ids[3] && ids[0] != ids[4] && ids[0] != ids[5];
    assert ids[1] != ids[2] && ids[1] != ids[3] && ids[1] != ids[4] && ids[1] != ids[5];
    assert ids[2] != ids[3] && ids[2] != ids[4] && ids[2] != ids[5];
    assert ids[3] != ids[4] && ids[3] != ids[5] && ids[4] != ids[5];
  }

  lemma OnlyOwnSnapshot(a: Entry, p: Entry, cutoff: Time, lb: ListedBackup, s: Snapshot)
    requires StoreOf(a, p).DistinctIDs() && lb in StoreOf(a, p).backups && Whole(StoreOf(a, p), cutoff, lb, s)
    requires a.snapshot.id == a.backup.snapshotID && p.snapshot.id == p.backup.snapshotID
    ensures (lb == AsListed(a) && s == a.snapshot) || (lb == AsListed(p) && s == p.snapshot)
  {
    var snaps := StoreOf(a, p).snapshots;
    assert snaps[0].id != snaps[1].id;
  }

  lemma StoreIsTidy(a: Entry, p: Entry, cutoff: Time, tenant: string, kind: string)
    requires PreviewLater(a, p, cutoff, tenant, kind)
    ensures Tidy(StoreOf(a, p), cutoff)
  {
    var st := StoreOf(a, p);
    IDsDiffer(a, p, cutoff, tenant, kind);
    EntryIsWhole(a, p, a, cutoff, tenant, kind);
    EntryIsWhole(a, p, p, cutoff, tenant, kind);
    assert PREVIEW_BACKUP != ASSIST_BACKUP;
    forall x, s, y, t | x in st.backups && y in st.backups && x != y && Whole(st, cutoff, x, s) &&
      Whole(st, cutoff, y, t)
      ensures SameOrder(x.backup, s, y.backup, t)
    {
      OnlyOwnSnapshot(a, p, cutoff, x, s);
      OnlyOwnSnapshot(a, p, cutoff, y, t);
    }
  }

  lemma StoreKeysAgree(a: Entry, p: Entry, cutoff: Time, tenant: string, kind: string)
    requires PreviewLater(a, p, cutoff, tenant, kind)
    ensures var r := a.backup.resource;
      KeysAgree(StoreOf(a, p), cutoff, SearchedLabels(r, kind), tenant + r + (SERVICE_CAT_TAG_PREFIX + kind))
  {
    var st, r := StoreOf(a, p), a.backup.resource;
    IDsDiffer(a, p, cutoff, tenant, kind);
    SearchAgreesWithKeys(a.backup, a.snapshot, tenant, {kind}, {r}, {kind}, r, kind);
    SearchAgreesWithKeys(p.backup, p.snapshot, tenant, {kind}, {r}, {kind}, r, kind);
    forall lb, s | lb in st.backups && Whole(st, cutoff, lb, s)
      ensures KeyAgrees(lb.backup, s, SearchedLabels(r, kind), tenant + r + (SERVICE_CAT_TAG_PREFIX + kind))
    {
      OnlyOwnSnapshot(a, p, cutoff, lb, s);
    }
  }

  /** The finder takes the assist backup, and passes over the preview. */
  lemma AssistIsSelected(a: Entry, p: Entry, cutoff: Time, tenant: string, kind: string)
    requires PreviewLater(a, p, cutoff, tenant, kind)
    ensures var st := StoreOf(a, p);
      Selected(st, FindManifests(st.snapshots, SearchedLabels(a.backup.resource, kind)),
               None, Some(FoundBase(a.backup, a.snapshot)))
  {
    var st, labels := StoreOf(a, p), SearchedLabels(a.backup.resource, kind);
    var metas := FindManifests(st.snapshots, labels);
    StoreIsTidy(a, p, cutoff, tenant, kind);
    EntryIsWhole(a, p, a, cutoff, tenant, kind);
    EntryIsWhole(a, p, p, cutoff, tenant, kind);
    WholeIsCandidate(st, cutoff, AsListed(a), a.snapshot);
    WholeIsCandidate(st, cutoff, AsListed(p), p.snapshot);
    TypesDiffer();
    forall x
      ensures x in metas ==> x == a.snapshot || x == p.snapshot
    {
      FoundManifests(st.snapshots, labels, x);
    }
    InCanonical(a.backup.resource, {kind}, a.backup.resource);
    InCanonical(a.backup.resource, {kind}, kind);
    InCanonical(a.backup.resource, {kind}, TAG_BACKUP_CATEGORY);
    FoundManifests(st.snapshots, labels, a.snapshot);
    assert NewestAssist(st, metas, a.snapshot);
  }

  lemma TypesDiffer()
    ensures ASSIST_BACKUP != MERGE_BACKUP && PREVIEW_BACKUP != MERGE_BACKUP && PREVIEW_BACKUP != ASSIST_BACKUP
  {
    assert |ASSIST_BACKUP| != |MERGE_BACKUP|;
    assert |PREVIEW_BACKUP| != |MERGE_BACKUP|;
    assert |PREVIEW_BACKUP| != |ASSIST_BACKUP|;
  }

  /** Cleanup counts the preview as a younger merge backup. */
  lemma AssistIsSuperseded(a: Entry, p: Entry, cutoff: Time, tenant: string, kind: string)
    requires PreviewLater(a, p, cutoff, tenant, kind)
    ensures SupersededAt(StoreOf(a, p).backups, SeenBy(StoreOf(a, p), cutoff), cutoff, 0)
  {
    var st := StoreOf(a, p);
    var bs, v := st.backups, SeenBy(st, cutoff);
    StoreIsTidy(a, p, cutoff, tenant, kind);
    EntryIsWhole(a, p, a, cutoff, tenant, kind);
    EntryIsWhole(a, p, p, cutoff, tenant, kind);
    WholeIsComplete(st, cutoff, bs[0], a.snapshot);
    WholeIsComplete(st, cutoff, bs[1], p.snapshot);
    TypesDiffer();
    forall k
      ensures k in KeysOf(v, bs[0]) ==> k in KeysOf(v, bs[1])
    {
      CanonicalKeys(a.backup, a.snapshot, tenant, {kind}, {kind}, k);
      CanonicalKeys(p.backup, p.snapshot, tenant, {kind}, {kind}, k);
    }
    TransferredKeys(a.snapshot, a.backup, "");
    forall k | k in KeysOf(v, bs[0])
      ensures Outdated(bs, v, cutoff, 0, k)
    {
      assert MergeFor(bs, v, cutoff, 1, k);
    }
  }

  /**
   With previews cleanup is visible.  On a tidy store with an assist backup and a later
   preview of the same kind, the finder selects the assist backup, and cleanup deletes it.
   */
  lemma PreviewHidesAssist(a: Entry, p: Entry, cutoff: Time, tenant: string, kind: string)
    requires PreviewLater(a, p, cutoff, tenant, kind)
    ensures var st, r := StoreOf(a, p), a.backup.resource;
      && Tidy(st, cutoff)
      && KeysAgree(st, cutoff, SearchedLabels(r, kind), tenant + r + (SERVICE_CAT_TAG_PREFIX + kind))
      && Selected(st, FindManifests(st.snapshots, SearchedLabels(r, kind)), None, Some(FoundBase(a.backup, a.snapshot)))
      && Deleted(st, cutoff, a.snapshot.id)
  {
    var st := StoreOf(a, p);
    StoreIsTidy(a, p, cutoff, tenant, kind);
    StoreKeysAgree(a, p, cutoff, tenant, kind);
    AssistIsSelected(a, p, cutoff, tenant, kind);
    AssistIsSuperseded(a, p, cutoff, tenant, kind);
    assert DeletedPiece(st.backups, SeenBy(st, cutoff), cutoff, 0, a.snapshot.id);
  }

  /** There are such backups. */
  lemma SomePreviewIsLater() returns (a: Entry, p: Entry)
    ensures PreviewLater(a, p, 10, "t", "k")
  {
    var labels := CanonicalLabels("r", {"k"});
    a := Entry(Snapshot("1", 1, labels, "a", Some("t"), false), DetailsModel("2", 1),
               Backup("3", "a", 1, 1, map[BACKUP_TYPE_TAG := ASSIST_BACKUP], 9, "r", "1", "2", ""));
    p := Entry(Snapshot("4", 2, labels, "p", Some("t"), false), DetailsModel("5", 2),
               Backup("6", "p", 2, 2, map[BACKUP_TYPE_TAG := PREVIEW_BACKUP], 9, "r", "4", "5", ""));
    assert !HasPrefix(BACKUP_TYPE_TAG, SERVICE_CAT_TAG_PREFIX) by {
      assert BACKUP_TYPE_TAG[0] != SERVICE_CAT_TAG_PREFIX[0];
    }
    assert "r" != "k" && NotReserved("r") && NotReserved("k") by {
      assert |TAG_BACKUP_ID| > 1 && |TAG_BACKUP_CATEGORY| > 1;
    }
  }
}
