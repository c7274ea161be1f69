/** The deletion set of OrphanCleanup is the one of PlainDeletion. */
module DeletionMeans {
  import opened Wrappers
  import opened ManifestStore
  import opened Cleanup
  import opened OrphanCleanup
  import opened PlainDeletion

  lemma OldMeans(w: Sweep, t: Time)
    ensures Old(t, Cutoff(w.now, w.gcBuffer)) <==> IsOld(w, t)
  {
  }

  lemma DataMeans(w: Sweep, id: ID, s: Snapshot)
    requires w.store.DistinctIDs()
    ensures var data := SeenBy(w.store, Cutoff(w.now, w.gcBuffer)).data;
      id in data && data[id] == s <==> s in w.store.snapshots && s.id == id && IsItemData(s) && IsOld(w, s.modTime)
  {
    var data := SeenBy(w.store, Cutoff(w.now, w.gcBuffer)).data;
    ItemSnapshotsAre(w.store.snapshots, Cutoff(w.now, w.gcBuffer), id);
    ItemDataMeans(s);
    if id in data {
      ItemDataMeans(data[id]);
      if s in w.store.snapshots && s.id == id {
        SameSnapshot(w.store, s, data[id]);
      }
    }
  }

  lemma SameSnapshot(st: Store, a: Snapshot, b: Snapshot)
    requires st.DistinctIDs() && a in st.snapshots && b in st.snapshots && a.id == b.id
    ensures a == b
  {
    var i :| 0 <= i < |st.snapshots| && st.snapshots[i] == a;
    var j :| 0 <= j < |st.snapshots| && st.snapshots[j] == b;
  }

  lemma ItemDataMeans(s: Snapshot)
    ensures ItemData(s) <==> IsItemData(s)
  {
    assert TagKey(TAG_BACKUP_CATEGORY) == "tag:is-canon-backup";
  }

  lemma DeetsMean(w: Sweep, id: ID)
    ensures id in SeenBy(w.store, Cutoff(w.now, w.gcBuffer)).deets <==> OldDetailsAt(w, id)
  {
    forall s | s in w.store.snapshots
      ensures ItemData(s) <==> IsItemData(s)
    {
      ItemDataMeans(s);
    }
  }

  lemma CompleteMeans(w: Sweep, i: int)
    requires w.store.DistinctIDs() && 0 <= i < |w.store.backups|
    ensures var v, lb := SeenBy(w.store, Cutoff(w.now, w.gcBuffer)), w.store.backups[i];
      && (Complete(v, Cutoff(w.now, w.gcBuffer), lb) ==> WholeAt(w, i, v.data[lb.backup.snapshotID]))
      && (forall s :: WholeAt(w, i, s) ==>
            Complete(v, Cutoff(w.now, w.gcBuffer), lb) && v.data[lb.backup.snapshotID] == s)
  {
    var v, b := SeenBy(w.store, Cutoff(w.now, w.gcBuffer)), w.store.backups[i].backup;
    DeetsMean(w, b.DetailsRef());
    assert forall id :: IsDetailsID(b, id) <==> id == b.DetailsRef();
    if b.snapshotID in v.data {
      DataMeans(w, b.snapshotID, v.data[b.snapshotID]);
    }
    forall s | WholeAt(w, i, s)
      ensures b.snapshotID in v.data && v.data[b.snapshotID] == s
    {
      DataMeans(w, b.snapshotID, s);
    }
  }

  lemma PrefixMeans(prefix: string, t: string)
    ensures HasPrefix(t, prefix) <==> t == prefix + t[if |prefix| <= |t| then |prefix| else |t|..]
    ensures forall kind :: prefix + kind == t ==> HasPrefix(t, prefix) && t[|prefix|..] == kind
  {
  }

  lemma ReasonTagMeans(tag: string, resource: string, kind: string)
    requires tag == "tag:" + kind
    ensures IsReasonTag(tag, resource) <==> kind != "backup-id" && kind != "is-canon-backup" && kind != resource
    ensures HasPrefix(tag, USER_TAG_PREFIX) && ServiceCatTag(tag) == "sc-" + kind
  {
    PrefixMeans("tag:", tag);
    PrefixMeans("tag:", TagKey(TAG_BACKUP_ID));
    PrefixMeans("tag:", TagKey(TAG_BACKUP_CATEGORY));
    PrefixMeans("tag:", TagKey(resource));
  }

  lemma LabelsMean(s: Snapshot, b: Backup, tag: string)
    requires tag in s.labels && IsReasonTag(tag, b.resource)
    ensures exists kind :: HasKind(b, s, kind) && ServiceCatTag(tag) == "sc-" + kind
  {
    var kind := tag[4..];
    PrefixMeans("tag:", tag);
    ReasonTagMeans(tag, b.resource, kind);
    assert HasKind(b, s, kind);
  }

  lemma KeyMeans(s: Snapshot, b: Backup, k: string)
    ensures (Transferred(s, b).Some? && HasKey(Transferred(s, b).value, k)) <==>
      exists tenant, kind :: Reads(b, s, tenant, kind, k)
  {
    if Transferred(s, b).Some? {
      TransferredKeys(s, b, k);
      if HasKey(Transferred(s, b).value, k) {
        KeyIsRead(s, b, k);
      }
    }
    if tenant, kind :| Reads(b, s, tenant, kind, k) {
      if "tag:" + kind in s.labels && kind != "backup-id" && kind != "is-canon-backup" && kind != b.resource {
        ReasonTagMeans("tag:" + kind, b.resource, kind);
        assert k == tenant + b.resource + ServiceCatTag("tag:" + kind);
      } else {
        PrefixMeans("sc-", "sc-" + kind);
        assert k == tenant + b.resource + ("sc-" + kind);
      }
    }
  }

  lemma KeyIsRead(s: Snapshot, b: Backup, k: string)
    requires Transferred(s, b).Some? && HasKey(Transferred(s, b).value, k)
    ensures exists tenant, kind :: Reads(b, s, tenant, kind, k)
  {
    TransferredKeys(s, b, k);
    var tenant := s.tenant.value;
    if tag :| tag in s.labels && IsReasonTag(tag, b.resource) && k == tenant + b.resource + ServiceCatTag(tag) {
      LabelsMean(s, b, tag);
      var kind :| HasKind(b, s, kind) && ServiceCatTag(tag) == "sc-" + kind;
      assert Reads(b, s, tenant, kind, k);
    } else {
      var tag :| tag in b.tags && HasPrefix(tag, SERVICE_CAT_TAG_PREFIX) && k == tenant + b.resource + tag;
      PrefixMeans("sc-", tag);
      assert HasKind(b, s, tag[3..]);
      assert Reads(b, s, tenant, tag[3..], k);
    }
  }

  lemma CountsMeans(w: Sweep, i: int, k: string)
    requires w.store.DistinctIDs()
    ensures var bs, cutoff := w.store.backups, Cutoff(w.now, w.gcBuffer);
      var v := SeenBy(w.store, cutoff);
      CountsFor(w, i, k) <==> 0 <= i < |bs| && Complete(v, cutoff, bs[i]) && k in KeysOf(v, bs[i])
  {
    if 0 <= i < |w.store.backups| {
      var v, lb := SeenBy(w.store, Cutoff(w.now, w.gcBuffer)), w.store.backups[i];
      CompleteMeans(w, i);
      if lb.backup.snapshotID in v.data {
        KeyMeans(v.data[lb.backup.snapshotID], lb.backup, k);
      }
    }
  }

  lemma OutdatedMeans(w: Sweep, i: int, k: string)
    requires w.store.DistinctIDs() && 0 <= i < |w.store.backups|
    ensures var bs, cutoff := w.store.backups, Cutoff(w.now, w.gcBuffer);
      Outdated(bs, SeenBy(w.store, cutoff), cutoff, i, k) <==> OutdatedFor(w, i, k)
  {
    var bs, cutoff := w.store.backups, Cutoff(w.now, w.gcBuffer);
    var v := SeenBy(w.store, cutoff);
    forall j
      ensures AssistFor(bs, v, cutoff, j, k) <==> CountsFor(w, j, k) && IsAssist(bs[j].backup)
      ensures MergeFor(bs, v, cutoff, j, k) <==> CountsFor(w, j, k) && !IsAssist(bs[j].backup)
    {
      CountsMeans(w, j, k);
    }
    if j :| CountsFor(w, j, k) && Replaces(bs[j].backup, bs[i].backup, j < i) {
      assert AssistFor(bs, v, cutoff, j, k) || MergeFor(bs, v, cutoff, j, k);
    }
    if j :| AssistFor(bs, v, cutoff, j, k) && Beats(bs, j, i) {
      assert Replaces(bs[j].backup, bs[i].backup, j < i);
    }
    if j :| MergeFor(bs, v, cutoff, j, k) && bs[i].backup.creationTime < bs[j].backup.creationTime {
      assert Replaces(bs[j].backup, bs[i].backup, j < i);
    }
  }

  lemma SupersededIsOutlived(w: Sweep, i: int)
    requires w.store.DistinctIDs()
    ensures var bs, cutoff := w.store.backups, Cutoff(w.now, w.gcBuffer);
      SupersededAt(bs, SeenBy(w.store, cutoff), cutoff, i) <==> Outlived(w, i)
  {
    if 0 <= i < |w.store.backups| {
      var v, b := SeenBy(w.store, Cutoff(w.now, w.gcBuffer)), w.store.backups[i].backup;
      CompleteMeans(w, i);
      forall k
        ensures CountsFor(w, i, k) <==> Complete(v, Cutoff(w.now, w.gcBuffer), w.store.backups[i])
                                        && k in KeysOf(v, w.store.backups[i])
        ensures Outdated(w.store.backups, v, Cutoff(w.now, w.gcBuffer), i, k) <==> OutdatedFor(w, i, k)
      {
        CountsMeans(w, i, k);
        OutdatedMeans(w, i, k);
      }
      if b.snapshotID in v.data && v.data[b.snapshotID].tenant.Some? {
        TransferredKeys(v.data[b.snapshotID], b, "");
      }
    }
  }

  lemma OldEntryMeans(w: Sweep, x: ID)
    ensures OldEntry(w.store, Cutoff(w.now, w.gcBuffer), x) <==> OldAt(w, x)
  {
    var cutoff := Cutoff(w.now, w.gcBuffer);
    if i :| OldModel(w.store.backups, cutoff, i, x) {
      assert OldBackupAt(w, i);
    }
    if i :| OldBackupAt(w, i) && w.store.backups[i].backup.modelID == x {
      assert OldModel(w.store.backups, cutoff, i, x);
    }
  }

  lemma ShieldedMeans(w: Sweep, x: ID)
    requires w.store.DistinctIDs()
    ensures var cutoff := Cutoff(w.now, w.gcBuffer);
      Shielded(w.store.backups, SeenBy(w.store, cutoff), cutoff, x) <==> PieceOfWhole(w, x)
  {
    var cutoff := Cutoff(w.now, w.gcBuffer);
    var bs, v := w.store.backups, SeenBy(w.store, cutoff);
    if i :| Shields(bs, v, cutoff, i, x) {
      CompleteMeans(w, i);
      assert WholeAt(w, i, v.data[bs[i].backup.snapshotID]) && IsPiece(bs[i].backup, x);
    }
    if i, s :| WholeAt(w, i, s) && IsPiece(bs[i].backup, x) {
      CompleteMeans(w, i);
      assert Shields(bs, v, cutoff, i, x);
    }
  }

  lemma OutlivedPieces(w: Sweep, x: ID)
    requires w.store.DistinctIDs()
    ensures var cutoff := Cutoff(w.now, w.gcBuffer);
      (exists i :: DeletedPiece(w.store.backups, SeenBy(w.store, cutoff), cutoff, i, x)) <==> PieceOfOutlived(w, x)
  {
    var cutoff := Cutoff(w.now, w.gcBuffer);
    var bs, v := w.store.backups, SeenBy(w.store, cutoff);
    if i :| DeletedPiece(bs, v, cutoff, i, x) {
      SupersededIsOutlived(w, i);
      assert OutlivedPiece(w, i, x);
    }
    if i :| OutlivedPiece(w, i, x) {
      SupersededIsOutlived(w, i);
      assert DeletedPiece(bs, v, cutoff, i, x);
    }
  }

  /** What cleanup deletes is what should go, read off the store's entries. */
  lemma DeletedShouldGo(w: Sweep, x: ID)
    requires w.store.DistinctIDs()
    ensures Deleted(w.store, Cutoff(w.now, w.gcBuffer), x) <==> ShouldGo(w, x)
  {
    OldEntryMeans(w, x);
    ShieldedMeans(w, x);
    OutlivedPieces(w, x);
  }
}
