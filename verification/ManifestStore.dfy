/**
 Snapshots, legacy details and backup models as kopia's manifest store lists them, and
 how both users of the store read the tags of a backup.
 */
module ManifestStore {
  import opened Wrappers

  type ID = string

  /** Times are counted from Go's zero time. */
  type Time = nat

  const TAG_BACKUP_ID := "backup-id"
  const TAG_BACKUP_CATEGORY := "is-canon-backup"
  const USER_TAG_PREFIX := "tag:"
  const SERVICE_CAT_TAG_PREFIX := "sc-"
  const TENANT_TAG := "tenant"
  const BACKUP_TYPE_TAG := "backup-type"
  const ASSIST_BACKUP := "assist-backup"
  const MERGE_BACKUP := "merge-backup"
  const PREVIEW_BACKUP := "preview-backup"
  const NO_BACKUP := -1
  const ALL8_MIGRATE_USER_PN_TO_ID := 8

  /** A snapshot manifest; `tenant` is the decoded path label, if it decodes. */
  datatype Snapshot = Snapshot(
    id: ID,
    modTime: Time,
    labels: set<string>,
    backupID: string,
    tenant: Option<string>,
    incomplete: bool)

  datatype DetailsModel = DetailsModel(id: ID, modTime: Time)

  datatype Backup = Backup(
    modelID: ID,
    stableID: string,
    modTime: Time,
    creationTime: Time,
    tags: map<string, string>,
    version: int,
    resource: string,
    snapshotID: ID,
    streamStoreID: ID,
    detailsID: ID)
  {
    /** `Backup.Type`: backups of old versions are merge backups unless tagged. */
    function Type(): string {
      if BACKUP_TYPE_TAG in tags then tags[BACKUP_TYPE_TAG]
      else if version != NO_BACKUP && version <= ALL8_MIGRATE_USER_PN_TO_ID then MERGE_BACKUP
      else ""
    }

    predicate TaggedAssist() {
      BACKUP_TYPE_TAG in tags && tags[BACKUP_TYPE_TAG] == ASSIST_BACKUP
    }

    function DetailsRef(): ID {
      if streamStoreID == "" then detailsID else streamStoreID
    }
  }

  /** What loading a listed backup model yields. */
  datatype Fetch = Loads | IsNotFound | Fails

  datatype ListedBackup = ListedBackup(backup: Backup, fetch: Fetch)

  datatype Store = Store(snapshots: seq<Snapshot>, details: seq<DetailsModel>, backups: seq<ListedBackup>)
  {
    /** Every manifest has its own ID. */
    ghost predicate DistinctIDs() {
      && (forall i, j :: 0 <= i < j < |snapshots| ==> snapshots[i].id != snapshots[j].id)
      && (forall i, j :: 0 <= i < j < |details| ==> details[i].id != details[j].id)
      && (forall i, j :: 0 <= i < j < |backups| ==> backups[i].backup.modelID != backups[j].backup.modelID)
      && (forall s, d :: s in snapshots && d in details ==> s.id != d.id)
      && (forall s, b :: s in snapshots && b in backups ==> s.id != b.backup.modelID)
      && (forall d, b :: d in details && b in backups ==> d.id != b.backup.modelID)
    }
  }

  function TagKey(k: string): string {
    USER_TAG_PREFIX + k
  }

  predicate HasPrefix(s: string, prefix: string) {
    prefix <= s
  }

  predicate ItemData(s: Snapshot) {
    TagKey(TAG_BACKUP_CATEGORY) in s.labels
  }

  predicate Old(modTime: Time, cutoff: Time) {
    modTime < cutoff
  }
}
