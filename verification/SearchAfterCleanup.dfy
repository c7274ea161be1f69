/**
 What `FindBases` returns before and after a cleanup.

 The results of the two searches may differ in order and in how reasons are shared out,
 but each reason is owned by the same backup with the same snapshot, or by none in both:
 the answers agree reason by reason, and every result answers for what it owns.
 */
module SearchAfterCleanup {
  import opened Wrappers
  import opened ManifestStore
  import opened CleanupAgain
  import opened BaseFinder
  import opened BackupBases
  import opened BaseSearch
  import opened CleanupVsFinder
  import opened CleanupHypotheses

  /** The base with reason `r`, if there is one, is the newest for it. */
  lemma OwnerAnswers(kind: Kind, st: Store, tags: set<string>, reasons: set<Reason>, bases: seq<BackupBase>, r: Reason)
    returns (found: Option<FoundBase>)
    requires AnswersEach(kind, st, tags, reasons, bases) && r in reasons
    ensures Outcome(kind, st, tags, r, found)
    ensures found.Some? <==> exists i :: HasReason(bases, r, i)
    ensures forall i :: HasReason(bases, r, i) ==>
      BaseSearch.Complete(bases[i]) && found == Some(FoundOf(bases[i]))
  {
    if i :| HasReason(bases, r, i) {
      found := Some(FoundOf(bases[i]));
    } else {
      found := None;
      assert forall i :: HeldOnce(bases, r, i) ==> r in multiset(bases[i].reasons) && HasReason(bases, r, i);
    }
  }

  function KindOf(r: Reason): string {
    r.service + r.category
  }

  /** Whole backups are tagged canonically, and so are the reasons searched for. */
  ghost predicate CanonicalStore(st: Store, cutoff: Time, tenant: string, resources: set<string>, kinds: set<string>) {
    && NamedApart(resources, kinds)
    && forall lb, s :: lb in st.backups && Whole(st, cutoff, lb, s) ==>
         lb.backup.resource in resources && exists own :: own <= kinds && CanonicallyTagged(lb.backup, s, tenant, own)
  }

  ghost predicate CanonicalReason(r: Reason, tenant: string, resources: set<string>, kinds: set<string>) {
    r.tenant == tenant && r.resource in resources && KindOf(r) in kinds
  }

  lemma CanonicalKeysAgree(st: Store, cutoff: Time, tenant: string, resources: set<string>, kinds: set<string>,
                           r: Reason)
    requires CanonicalStore(st, cutoff, tenant, resources, kinds) && CanonicalReason(r, tenant, resources, kinds)
    ensures KeysAgree(st, cutoff, SearchTags(r, {TAG_BACKUP_CATEGORY}),
                      tenant + r.resource + (SERVICE_CAT_TAG_PREFIX + KindOf(r)))
  {
    assert SearchTags(r, {TAG_BACKUP_CATEGORY}) == SearchedLabels(r.resource, KindOf(r));
    forall lb, s | lb in st.backups && Whole(st, cutoff, lb, s)
      ensures KeyAgrees(lb.backup, s, SearchedLabels(r.resource, KindOf(r)),
                        tenant + r.resource + (SERVICE_CAT_TAG_PREFIX + KindOf(r)))
    {
      var own :| own <= kinds && CanonicallyTagged(lb.backup, s, tenant, own);
      SearchAgreesWithKeys(lb.backup, s, tenant, own, resources, kinds, r.resource, KindOf(r));
    }
  }

  lemma SameOutcome(kind: Kind, st: Store, cutoff: Time, gone: set<ID>, tags: set<string>, k: string, r: Reason,
                    found: Option<FoundBase>, found': Option<FoundBase>)
    requires Tidy(st, cutoff) && NoPreviews(st) && IsDeleted(st, cutoff, gone)
    requires KeysAgree(st, cutoff, SearchTags(r, tags), k)
    requires Outcome(kind, st, tags, r, found) && Outcome(kind, Without(st, gone), tags, r, found')
    ensures found == found'
  {
    if kind.MergeKind? {
      SameMergeBase(st, cutoff, gone, SearchTags(r, tags), found, found');
    } else {
      SameAssistBase(st, cutoff, gone, SearchTags(r, tags), k, found, found');
    }
  }

  /**
   Cleanup does not change what a backup is based on.  On a tidy store with canonical tags
   and no previews, a base is found for a reason before a cleanup exactly if one is found
   afterwards, and then it is the same backup with the same snapshot.
   */
  lemma FindBasesIgnoresCleanup(kind: Kind, st: Store, cutoff: Time, gone: set<ID>, tenant: string,
                                resources: set<string>, kinds: set<string>, reasons: set<Reason>,
                                bases: seq<BackupBase>, bases': seq<BackupBase>, r: Reason)
    requires Tidy(st, cutoff) && NoPreviews(st) && IsDeleted(st, cutoff, gone)
    requires CanonicalStore(st, cutoff, tenant, resources, kinds) && CanonicalReason(r, tenant, resources, kinds)
    requires r in reasons
    requires AnswersEach(kind, st, {TAG_BACKUP_CATEGORY}, reasons, bases)
    requires AnswersEach(kind, Without(st, gone), {TAG_BACKUP_CATEGORY}, reasons, bases')
    ensures (exists i :: HasReason(bases, r, i)) <==> exists j :: HasReason(bases', r, j)
    ensures forall i, j :: HasReason(bases, r, i) && HasReason(bases', r, j) ==>
      bases[i].backup == bases'[j].backup && bases[i].snapshot == bases'[j].snapshot
  {
    var found := OwnerAnswers(kind, st, {TAG_BACKUP_CATEGORY}, reasons, bases, r);
    var found' := OwnerAnswers(kind, Without(st, gone), {TAG_BACKUP_CATEGORY}, reasons, bases', r);
    CanonicalKeysAgree(st, cutoff, tenant, resources, kinds, r);
    SameOutcome(kind, st, cutoff, gone, {TAG_BACKUP_CATEGORY},
                tenant + r.resource + (SERVICE_CAT_TAG_PREFIX + KindOf(r)), r, found, found');
  }
}
