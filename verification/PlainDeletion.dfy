/**
 What cleanup should delete, in terms of the entries of the store alone: their times,
 labels and tags.
 */
module PlainDeletion {
  import opened Wrappers
  import opened ManifestStore

  /** A cleanup: what it lists, when it looks at the clock, and its buffer. */
  datatype Sweep = Sweep(store: Store, now: Time, gcBuffer: nat)

  predicate IsOld(w: Sweep, t: Time) {
    t + w.gcBuffer < w.now
  }

  predicate IsItemData(s: Snapshot) {
    "tag:is-canon-backup" in s.labels
  }

  predicate IsDetailsID(b: Backup, id: ID) {
    if b.streamStoreID != "" then id == b.streamStoreID else id == b.detailsID
  }

  ghost predicate OldDetailsAt(w: Sweep, id: ID) {
    || (exists s :: s in w.store.snapshots && s.id == id && IsOld(w, s.modTime) && !IsItemData(s))
    || (exists d :: d in w.store.details && d.id == id && IsOld(w, d.modTime))
  }

  /** Model, item data and details of the `i`-th backup are all there, and old. */
  ghost predicate WholeAt(w: Sweep, i: int, s: Snapshot) {
    && 0 <= i < |w.store.backups| && w.store.backups[i].fetch.Loads?
    && var b := w.store.backups[i].backup;
    && IsOld(w, b.modTime)
    && s in w.store.snapshots && s.id == b.snapshotID && IsItemData(s) && IsOld(w, s.modTime)
    && exists id :: IsDetailsID(b, id) && OldDetailsAt(w, id)
  }

  /** The service and category `kind` is in the snapshot's labels, or in the backup's own tags. */
  predicate HasKind(b: Backup, s: Snapshot, kind: string) {
    || ("tag:" + kind in s.labels && kind != "backup-id" && kind != "is-canon-backup" && kind != b.resource)
    || "sc-" + kind in b.tags
  }

  predicate IsAssist(b: Backup) {
    "backup-type" in b.tags && b.tags["backup-type"] == "assist-backup"
  }

  /** The backup counts for the reason that reads `k`: its tenant, its resource, and one of its kinds. */
  ghost predicate CountsFor(w: Sweep, i: int, k: string) {
    exists s, tenant, kind :: WholeAt(w, i, s) && Reads(w.store.backups[i].backup, s, tenant, kind, k)
  }

  ghost predicate Reads(b: Backup, s: Snapshot, tenant: string, kind: string, k: string) {
    s.tenant == Some(tenant) && tenant != "" && HasKind(b, s, kind) && k == tenant + b.resource + ("sc-" + kind)
  }

  /** For that reason there is a younger backup, or one of the same age listed earlier, if both are assist backups. */
  ghost predicate OutdatedFor(w: Sweep, i: int, k: string)
    requires 0 <= i < |w.store.backups|
  {
    exists j :: CountsFor(w, j, k) && Replaces(w.store.backups[j].backup, w.store.backups[i].backup, j < i)
  }

  predicate Replaces(newer: Backup, b: Backup, earlier: bool) {
    b.creationTime < newer.creationTime || (IsAssist(newer) && b.creationTime == newer.creationTime && earlier)
  }

  /** A whole assist backup of a known tenant that is outdated for each of its reasons. */
  ghost predicate Outlived(w: Sweep, i: int) {
    && (exists s, tenant :: WholeAt(w, i, s) && s.tenant == Some(tenant) && tenant != "")
    && IsAssist(w.store.backups[i].backup)
    && forall k :: CountsFor(w, i, k) ==> OutdatedFor(w, i, k)
  }

  ghost predicate OldAt(w: Sweep, x: ID) {
    || (exists s :: s in w.store.snapshots && s.id == x && IsOld(w, s.modTime))
    || (exists d :: d in w.store.details && d.id == x && IsOld(w, d.modTime))
    || (exists i :: OldBackupAt(w, i) && w.store.backups[i].backup.modelID == x)
  }

  ghost predicate OldBackupAt(w: Sweep, i: int) {
    0 <= i < |w.store.backups| && IsOld(w, w.store.backups[i].backup.modTime)
  }

  predicate IsPiece(b: Backup, x: ID) {
    x == b.modelID || x == b.snapshotID || IsDetailsID(b, x)
  }

  ghost predicate PieceOfWhole(w: Sweep, x: ID) {
    exists i, s :: WholeAt(w, i, s) && IsPiece(w.store.backups[i].backup, x)
  }

  /** Of an outlived assist backup, details in a legacy model are left behind. */
  ghost predicate PieceOfOutlived(w: Sweep, x: ID) {
    exists i :: OutlivedPiece(w, i, x)
  }

  ghost predicate OutlivedPiece(w: Sweep, i: int, x: ID) {
    && Outlived(w, i)
    && var b := w.store.backups[i].backup; (x == b.modelID || x == b.snapshotID || x == b.streamStoreID)
  }

  /** Old entries that belong to no whole backup, and the pieces of outlived assist backups. */
  ghost predicate ShouldGo(w: Sweep, x: ID) {
    (OldAt(w, x) && !PieceOfWhole(w, x)) || PieceOfOutlived(w, x)
  }
}
