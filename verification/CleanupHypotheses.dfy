/**
 The hypotheses of CleanupVsFinder: why no backup may lie across the cutoff, and when
 the finder's labels and cleanup's keys agree.
 */
module CleanupHypotheses {
  import opened Wrappers
  import opened ManifestStore
  import opened Cleanup
  import opened OrphanCleanup
  import opened CleanupAgain
  import opened BaseFinder
  import opened CleanupVsFinder

  // ---------------------------------------------------------------------------
  // Backups across the cutoff
  // ---------------------------------------------------------------------------

  /** A loadable merge backup whose item data snapshot is `s`. */
  ghost predicate MergeBackupAt(st: Store, i: int, s: Snapshot) {
    && 0 <= i < |st.backups| && st.backups[i].fetch.Loads? && !st.backups[i].backup.TaggedAssist()
    && s in st.snapshots && ItemData(s) && s.id == st.backups[i].backup.snapshotID
    && s.id != "" && st.backups[i].backup.modelID != ""
  }

  ghost predicate NothingShared(st: Store) {
    st.DistinctIDs() && NoneShared(st.backups)
  }

  /**
   An old item data snapshot of a merge backup is deleted exactly if the backup's model
   or its details are not old as well.  A backup written across the cutoff is lost.
   */
  lemma StraddlingBackupIsLost(st: Store, cutoff: Time, i: int, s: Snapshot)
    requires NothingShared(st) && MergeBackupAt(st, i, s) && Old(s.modTime, cutoff)
    ensures var b := st.backups[i].backup;
      Deleted(st, cutoff, s.id) <==> !Old(b.modTime, cutoff) || b.DetailsRef() !in SeenBy(st, cutoff).deets
  {
    var bs, v := st.backups, SeenBy(st, cutoff);
    ItemSnapshotsAre(st.snapshots, cutoff, s.id);
    assert OldEntry(st, cutoff, s.id);
    assert Complete(v, cutoff, bs[i]) <==> Shields(bs, v, cutoff, i, s.id);
    forall j
      ensures Shields(bs, v, cutoff, j, s.id) ==> j == i
      ensures !DeletedPiece(bs, v, cutoff, j, s.id)
    {
    }
  }

  /** The finder then no longer sees the backup, although its model is still there. */
  lemma LostBackupIsNotFound(st: Store, cutoff: Time, gone: set<ID>, i: int, s: Snapshot, labels: set<string>)
    requires NothingShared(st) && MergeBackupAt(st, i, s) && Old(s.modTime, cutoff)
    requires !Old(st.backups[i].backup.modTime, cutoff) && IsDeleted(st, cutoff, gone)
    ensures st.backups[i] in Without(st, gone).backups
    ensures s !in FindManifests(Without(st, gone).snapshots, labels)
  {
    StraddlingBackupIsLost(st, cutoff, i, s);
    FoundManifests(Without(st, gone).snapshots, labels, s);
    KeptSnapshots(st.snapshots, gone, s);
    KeptBackups(st.backups, gone, st.backups[i]);
    YoungModelNotOld(st, cutoff, i);
    forall j
      ensures !DeletedPiece(st.backups, SeenBy(st, cutoff), cutoff, j, st.backups[i].backup.modelID)
    {
      ModelIsNoAssistPiece(st, cutoff, i, s, j);
    }
  }

  lemma ModelIsNoAssistPiece(st: Store, cutoff: Time, i: int, s: Snapshot, j: int)
    requires NothingShared(st) && MergeBackupAt(st, i, s)
    ensures !DeletedPiece(st.backups, SeenBy(st, cutoff), cutoff, j, st.backups[i].backup.modelID)
  {
    StoreModelsApart(st, cutoff);
    if 0 <= j < |st.backups| {
      assert i < j ==> OtherModel(st.backups[i], st.backups[j]);
      assert j < i ==> OtherModel(st.backups[j], st.backups[i]);
      assert Unseen(SeenBy(st, cutoff), st.backups[i]);
    }
  }

  // ---------------------------------------------------------------------------
  // Labels and keys
  // ---------------------------------------------------------------------------

  /** The tags a snapshot is given: its backup, its kind, its resource, its services and categories. */
  function CanonicalLabels(resource: string, kinds: set<string>): set<string> {
    {TagKey(TAG_BACKUP_ID), TagKey(TAG_BACKUP_CATEGORY), TagKey(resource)} + set x | x in kinds :: TagKey(x)
  }

  /** The tags the finder searches for. */
  function SearchedLabels(resource: string, kind: string): set<string> {
    {TagKey(resource), TagKey(kind), TagKey(TAG_BACKUP_CATEGORY)}
  }

  predicate NotReserved(name: string) {
    name != TAG_BACKUP_ID && name != TAG_BACKUP_CATEGORY
  }

  /** Resources and kinds (services with categories) are named apart, and their joint keys can be taken apart again. */
  ghost predicate NamedApart(resources: set<string>, kinds: set<string>) {
    && resources !! kinds
    && (forall x :: x in resources || x in kinds ==> NotReserved(x))
    && (forall r, k, r', k' ::
          r in resources && r' in resources && k in kinds && k' in kinds && SameJoint(r, k, r', k') ==>
          r == r' && k == k')
  }

  predicate SameJoint(r: string, k: string, r': string, k': string) {
    r + (SERVICE_CAT_TAG_PREFIX + k) == r' + (SERVICE_CAT_TAG_PREFIX + k')
  }

  lemma TagKeyInjective(a: string, b: string)
    ensures TagKey(a) == TagKey(b) ==> a == b
    ensures HasPrefix(TagKey(a), USER_TAG_PREFIX) && ServiceCatTag(TagKey(a)) == SERVICE_CAT_TAG_PREFIX + a
  {
    assert TagKey(a)[|USER_TAG_PREFIX|..] == a && TagKey(b)[|USER_TAG_PREFIX|..] == b;
  }

  lemma InCanonical(resource: string, kinds: set<string>, x: string)
    ensures TagKey(x) in CanonicalLabels(resource, kinds) <==>
      x in kinds || x == resource || x == TAG_BACKUP_ID || x == TAG_BACKUP_CATEGORY
  {
    TagKeyInjective(x, resource);
    TagKeyInjective(x, TAG_BACKUP_ID);
    TagKeyInjective(x, TAG_BACKUP_CATEGORY);
    forall y | y in kinds
      ensures TagKey(x) == TagKey(y) ==> x == y
    {
      TagKeyInjective(x, y);
    }
  }

  lemma AppendInjective(p: string, a: string, b: string)
    ensures p + a == p + b ==> a == b
  {
    assert (p + a)[|p|..] == a && (p + b)[|p|..] == b;
  }

  /** The tag of a kind gives the key of that kind, and no other kind's. */
  lemma ReasonTagIs(resource: string, kinds: set<string>, own: set<string>, tag: string)
    requires own <= kinds && NamedApart({resource}, kinds) && tag in CanonicalLabels(resource, own)
    ensures IsReasonTag(tag, resource) <==> exists x :: x in own && tag == TagKey(x)
  {
    forall x | x in own
      ensures IsReasonTag(TagKey(x), resource)
    {
      TagKeyInjective(x, resource);
      TagKeyInjective(x, TAG_BACKUP_ID);
      TagKeyInjective(x, TAG_BACKUP_CATEGORY);
      assert NotReserved(x);
    }
  }

  lemma JointIs(tenant: string, r: string, k: string, r': string, k': string)
    ensures tenant + r + (SERVICE_CAT_TAG_PREFIX + k) == tenant + r' + (SERVICE_CAT_TAG_PREFIX + k') <==>
      SameJoint(r, k, r', k')
  {
    assert tenant + r + (SERVICE_CAT_TAG_PREFIX + k) == tenant + (r + (SERVICE_CAT_TAG_PREFIX + k));
    assert tenant + r' + (SERVICE_CAT_TAG_PREFIX + k') == tenant + (r' + (SERVICE_CAT_TAG_PREFIX + k'));
    AppendInjective(tenant, r + (SERVICE_CAT_TAG_PREFIX + k), r' + (SERVICE_CAT_TAG_PREFIX + k'));
  }

  ghost predicate CanonicallyTagged(b: Backup, s: Snapshot, tenant: string, own: set<string>) {
    && s.tenant == Some(tenant) && tenant != ""
    && s.labels == CanonicalLabels(b.resource, own)
    && forall tag :: tag in b.tags ==> !HasPrefix(tag, SERVICE_CAT_TAG_PREFIX)
  }

  /** The keys of a canonically tagged backup. */
  lemma CanonicalKeys(b: Backup, s: Snapshot, tenant: string, own: set<string>, kinds: set<string>, k: string)
    requires CanonicallyTagged(b, s, tenant, own) && own <= kinds && NamedApart({b.resource}, kinds)
    ensures Transferred(s, b).Some?
    ensures HasKey(Transferred(s, b).value, k) <==>
      exists x :: x in own && k == tenant + b.resource + (SERVICE_CAT_TAG_PREFIX + x)
  {
    TransferredKeys(s, b, k);
    forall tag | tag in s.labels
      ensures IsReasonTag(tag, b.resource) <==> exists x :: x in own && tag == TagKey(x)
    {
      ReasonTagIs(b.resource, kinds, own, tag);
    }
    forall x | x in own
      ensures TagKey(x) in s.labels && ServiceCatTag(TagKey(x)) == SERVICE_CAT_TAG_PREFIX + x
    {
      InCanonical(b.resource, own, x);
      TagKeyInjective(x, x);
    }
  }

  /**
   On canonical tags the finder's search for a resource and kind, and cleanup's key for
   them, pick the same backups.
   */
  lemma SearchAgreesWithKeys(b: Backup, s: Snapshot, tenant: string, own: set<string>,
                             resources: set<string>, kinds: set<string>, resource: string, kind: string)
    requires NamedApart(resources, kinds) && own <= kinds && b.resource in resources
    requires resource in resources && kind in kinds
    requires CanonicallyTagged(b, s, tenant, own)
    ensures KeyAgrees(b, s, SearchedLabels(resource, kind), tenant + resource + (SERVICE_CAT_TAG_PREFIX + kind))
  {
    var k := tenant + resource + (SERVICE_CAT_TAG_PREFIX + kind);
    CanonicalKeys(b, s, tenant, own, kinds, k);
    InCanonical(b.resource, own, resource);
    InCanonical(b.resource, own, kind);
    InCanonical(b.resource, own, TAG_BACKUP_CATEGORY);
    assert NotReserved(resource) && NotReserved(kind);
    assert SearchedLabels(resource, kind) <= s.labels <==> resource == b.resource && kind in own;
    forall x | x in own
      ensures k == tenant + b.resource + (SERVICE_CAT_TAG_PREFIX + x) ==> resource == b.resource && kind == x
    {
      JointIs(tenant, resource, kind, b.resource, x);
    }
  }
}
