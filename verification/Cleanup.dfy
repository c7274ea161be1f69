/**
 `cleanupOrphanedData`: which manifests are deleted.  The methods follow the source's
 loops over mutable maps; `DeletionSet` says what they compute.
 */
module Cleanup {
  import opened Wrappers
  import opened ManifestStore

  // ---------------------------------------------------------------------------
  // Reason keys of a backup
  // ---------------------------------------------------------------------------

  predicate IsReasonTag(tag: string, resource: string) {
    && HasPrefix(tag, USER_TAG_PREFIX)
    && tag != TagKey(TAG_BACKUP_ID) && tag != TagKey(TAG_BACKUP_CATEGORY) && tag != TagKey(resource)
  }

  function ServiceCatTag(tag: string): string
    requires HasPrefix(tag, USER_TAG_PREFIX)
  {
    SERVICE_CAT_TAG_PREFIX + tag[|USER_TAG_PREFIX|..]
  }

  function ReasonTagsOf(labels: set<string>, resource: string): set<string> {
    set tag | tag in labels && IsReasonTag(tag, resource) :: ServiceCatTag(tag)
  }

  /** The tags a snapshot's labels turn into. */
  function ReasonTags(s: Snapshot, resource: string): set<string> {
    ReasonTagsOf(s.labels, resource)
  }

  function TagMap(tags: set<string>): map<string, string> {
    map t | t in tags :: "0"
  }

  /** The backup with the reason tags of its snapshot, unless the tenant label is broken. */
  function Transferred(s: Snapshot, b: Backup): Option<Backup> {
    if s.tenant.None? then None
    else Some(b.(tags := b.tags[TENANT_TAG := s.tenant.value] + TagMap(ReasonTags(s, b.resource))))
  }

  /** `transferTags`. */
  method TransferTags(s: Snapshot, b: Backup) returns (res: Option<Backup>)
    ensures res == Transferred(s, b)
  {
    if s.tenant.None? {
      return None;
    }
    var tags := b.tags[TENANT_TAG := s.tenant.value];
    ghost var start, copied := tags, {};
    var left := s.labels;
    while left != {}
      invariant left <= s.labels
      invariant copied == ReasonTagsOf(s.labels - left, b.resource)
      invariant tags == start + TagMap(copied)
      decreases left
    {
      var tag :| tag in left;
      CopyTag(s.labels, left, tag, b.resource);
      left := left - {tag};
      if !IsReasonTag(tag, b.resource) {
        continue;
      }
      TagMapStep(start, copied, ServiceCatTag(tag));
      tags := tags[ServiceCatTag(tag) := "0"];
      copied := copied + {ServiceCatTag(tag)};
    }
    assert s.labels - left == s.labels;
    return Some(b.(tags := tags));
  }

  lemma CopyTag(labels: set<string>, left: set<string>, tag: string, resource: string)
    requires left <= labels && tag in left
    ensures ReasonTagsOf(labels - (left - {tag}), resource)
         == ReasonTagsOf(labels - left, resource) + if IsReasonTag(tag, resource) then {ServiceCatTag(tag)} else {}
  {
    assert labels - (left - {tag}) == (labels - left) + {tag};
  }

  lemma TagMapStep(start: map<string, string>, copied: set<string>, tag: string)
    ensures start + TagMap(copied + {tag}) == (start + TagMap(copied))[tag := "0"]
  {
  }

  /** The reason keys found in the tags of a backup; a backup without a tenant has none. */
  function TaggedKeys(b: Backup): Option<set<string>> {
    if TENANT_TAG !in b.tags || b.tags[TENANT_TAG] == "" then None
    else Some(set tag | tag in b.tags && HasPrefix(tag, SERVICE_CAT_TAG_PREFIX) ::
        b.tags[TENANT_TAG] + b.resource + tag)
  }

  /** `keysForBackup`. */
  method KeysForBackup(b: Backup) returns (res: Option<set<string>>)
    ensures res == TaggedKeys(b)
  {
    if TENANT_TAG !in b.tags || b.tags[TENANT_TAG] == "" {
      return None;
    }
    var tenant := b.tags[TENANT_TAG];
    var keys, left := {}, b.tags.Keys;
    while left != {}
      invariant left <= b.tags.Keys
      invariant keys == set tag | tag in b.tags.Keys - left && HasPrefix(tag, SERVICE_CAT_TAG_PREFIX) ::
        tenant + b.resource + tag
      decreases left
    {
      var tag :| tag in left;
      assert b.tags.Keys - (left - {tag}) == (b.tags.Keys - left) + {tag};
      left := left - {tag};
      if HasPrefix(tag, SERVICE_CAT_TAG_PREFIX) {
        keys := keys + {tenant + b.resource + tag};
      }
    }
    assert b.tags.Keys - left == b.tags.Keys;
    return Some(keys);
  }

  lemma NotATenant(tag: string)
    requires HasPrefix(tag, USER_TAG_PREFIX)
    ensures ServiceCatTag(tag) != TENANT_TAG && HasPrefix(ServiceCatTag(tag), SERVICE_CAT_TAG_PREFIX)
  {
    assert ServiceCatTag(tag)[..|SERVICE_CAT_TAG_PREFIX|] == SERVICE_CAT_TAG_PREFIX;
    assert ServiceCatTag(tag)[0] == 's';
  }

  /** The keys of a backup with transferred tags: its tenant, resource, and service and category. */
  lemma TransferredKeys(s: Snapshot, b: Backup, k: string)
    requires Transferred(s, b).Some?
    ensures var keys := TaggedKeys(Transferred(s, b).value);
      && (keys.None? <==> s.tenant.value == "")
      && (keys.Some? ==> (k in keys.value <==>
            || (exists tag :: tag in s.labels && IsReasonTag(tag, b.resource) &&
                 k == s.tenant.value + b.resource + ServiceCatTag(tag))
            || (exists tag ::
                 tag in b.tags && HasPrefix(tag, SERVICE_CAT_TAG_PREFIX) && k == s.tenant.value + b.resource + tag)))
  {
    var t := Transferred(s, b).value;
    forall tag | tag in s.labels && IsReasonTag(tag, b.resource)
      ensures ServiceCatTag(tag) in t.tags && HasPrefix(ServiceCatTag(tag), SERVICE_CAT_TAG_PREFIX) &&
        ServiceCatTag(tag) != TENANT_TAG
    {
      NotATenant(tag);
    }
    assert TENANT_TAG !in ReasonTags(s, b.resource);
    assert !HasPrefix(TENANT_TAG, SERVICE_CAT_TAG_PREFIX) by {
      assert TENANT_TAG[0] != SERVICE_CAT_TAG_PREFIX[0];
    }
  }

  // ---------------------------------------------------------------------------
  // collectOldAssistBases
  // ---------------------------------------------------------------------------

  predicate HasKey(b: Backup, k: string) {
    TaggedKeys(b).Some? && k in TaggedKeys(b).value
  }

  /** The backups that have reason key `k`, in order. */
  function WithKey(bups: seq<Backup>, k: string): seq<Backup> {
    if bups == [] then []
    else WithKey(bups[..|bups| - 1], k) + if HasKey(bups[|bups| - 1], k) then [bups[|bups| - 1]] else []
  }

  /** The youngest backup, the first one of those created at the same time. */
  function Newest(bups: seq<Backup>): Backup
    requires bups != []
  {
    var last := bups[|bups| - 1];
    if |bups| == 1 then last
    else
      var best := Newest(bups[..|bups| - 1]);
      if best.creationTime < last.creationTime then last else best
  }

  function Insert(sorted: seq<Backup>, b: Backup): seq<Backup> {
    if sorted == [] || sorted[0].creationTime < b.creationTime then [b] + sorted
    else [sorted[0]] + Insert(sorted[1..], b)
  }

  /** A stable sort in reverse chronological order. */
  function SortedByAge(bups: seq<Backup>): seq<Backup> {
    if bups == [] then [] else Insert(SortedByAge(bups[..|bups| - 1]), bups[|bups| - 1])
  }

  lemma {:induction false} SortedStartsWithNewest(bups: seq<Backup>)
    requires bups != []
    ensures SortedByAge(bups) != [] && SortedByAge(bups)[0] == Newest(bups)
  {
    if |bups| > 1 {
      SortedStartsWithNewest(bups[..|bups| - 1]);
    }
  }

  function TimeOf(recent: map<string, Time>, k: string): Time {
    if k in recent then recent[k] else 0
  }

  /** `b` is the youngest of its kind for `k`, and no merge base is younger. */
  predicate KeptFor(bups: seq<Backup>, recent: map<string, Time>, b: Backup, k: string) {
    WithKey(bups, k) != [] && Newest(WithKey(bups, k)) == b && TimeOf(recent, k) <= b.creationTime
  }

  ghost predicate Superseded(bups: seq<Backup>, recent: map<string, Time>, b: Backup) {
    b in bups && TaggedKeys(b).Some? && forall k :: k in TaggedKeys(b).value ==> !KeptFor(bups, recent, b, k)
  }

  function AssistPieces(b: Backup): set<ID> {
    {b.modelID, b.snapshotID, b.streamStoreID}
  }

  ghost predicate DistinctModels(bups: seq<Backup>) {
    forall i, j :: 0 <= i < j < |bups| ==> bups[i].modelID != bups[j].modelID
  }

  /** Backups whose keys are known, by ID. */
  function Candidates(bups: seq<Backup>): map<ID, Backup> {
    if bups == [] then map[]
    else
      var rest, last := Candidates(bups[..|bups| - 1]), bups[|bups| - 1];
      if TaggedKeys(last).Some? then rest[last.modelID := last] else rest
  }

  lemma {:induction false} CandidatesAre(bups: seq<Backup>, b: Backup)
    requires DistinctModels(bups)
    ensures (b.modelID in Candidates(bups) && Candidates(bups)[b.modelID] == b) <==> b in bups && TaggedKeys(b).Some?
    ensures b in bups && TaggedKeys(b).None? ==> b.modelID !in Candidates(bups)
    ensures forall id :: id in Candidates(bups) ==> exists i :: 0 <= i < |bups| && bups[i].modelID == id
  {
    if bups != [] {
      var init, last := bups[..|bups| - 1], bups[|bups| - 1];
      CandidatesAre(init, b);
      assert forall i :: 0 <= i < |init| ==> bups[i] == init[i];
      assert forall x :: x in bups <==> x in init || x == last;
      assert last.modelID !in Candidates(init);
    }
  }

  lemma {:induction false} CandidateIDs(bups: seq<Backup>)
    ensures forall id :: id in Candidates(bups) ==> Candidates(bups)[id].modelID == id
  {
    if bups != [] {
      CandidateIDs(bups[..|bups| - 1]);
    }
  }

  ghost predicate Grouped(groups: map<string, seq<Backup>>, bups: seq<Backup>) {
    forall k :: (k in groups <==> WithKey(bups, k) != []) && (k in groups ==> groups[k] == WithKey(bups, k))
  }

  /** Adds a backup to the group of each of its keys. */
  method AddToGroups(groups: map<string, seq<Backup>>, keys: set<string>, b: Backup)
    returns (res: map<string, seq<Backup>>)
    ensures forall k :: k in res <==> k in groups || k in keys
    ensures forall k :: k in res ==> res[k] == (if k in groups then groups[k] else []) + (if k in keys then [b] else [])
  {
    res := groups;
    var left := keys;
    while left != {}
      invariant left <= keys
      invariant forall k :: k in res <==> k in groups || k in keys - left
      invariant forall k :: k in res ==>
        res[k] == (if k in groups then groups[k] else []) + (if k in keys - left then [b] else [])
      decreases left
    {
      var tag :| tag in left;
      res := res[tag := (if tag in res then res[tag] else []) + [b]];
      left := left - {tag};
    }
  }

  /** IDs of the backups that some key in `keys` keeps. */
  ghost predicate KeptByKey(bups: seq<Backup>, recent: map<string, Time>, keys: set<string>, id: ID) {
    exists k :: k in keys && KeptKey(bups, recent, k, id)
  }

  ghost predicate KeptKey(bups: seq<Backup>, recent: map<string, Time>, k: string, id: ID) {
    && WithKey(bups, k) != [] && Newest(WithKey(bups, k)).modelID == id
    && TimeOf(recent, k) <= Newest(WithKey(bups, k)).creationTime
  }

  lemma {:induction false} WithKeyIn(bups: seq<Backup>, k: string, b: Backup)
    ensures b in WithKey(bups, k) <==> b in bups && HasKey(b, k)
  {
    if bups != [] {
      WithKeyIn(bups[..|bups| - 1], k, b);
    }
  }

  lemma {:induction false} NewestIn(bups: seq<Backup>)
    requires bups != []
    ensures Newest(bups) in bups
  {
    if |bups| > 1 {
      NewestIn(bups[..|bups| - 1]);
    }
  }

  ghost predicate Undecided(bups: seq<Backup>, recent: map<string, Time>, keys: set<string>, m: map<ID, Backup>) {
    forall id :: (id in m <==> id in Candidates(bups) && !KeptByKey(bups, recent, keys, id))
              && (id in m ==> m[id] == Candidates(bups)[id])
  }

  lemma UndecidedStep(bups: seq<Backup>, recent: map<string, Time>, keys: set<string>, m: map<ID, Backup>, k: string)
    requires Undecided(bups, recent, keys, m) && WithKey(bups, k) != []
    ensures var b := Newest(WithKey(bups, k));
      Undecided(bups, recent, keys + {k}, if TimeOf(recent, k) <= b.creationTime then m - {b.modelID} else m)
  {
    forall id
      ensures KeptByKey(bups, recent, keys + {k}, id) <==>
        KeptByKey(bups, recent, keys, id) || KeptKey(bups, recent, k, id)
    {
    }
  }

  lemma DecidedIsSuperseded(bups: seq<Backup>, recent: map<string, Time>, keys: set<string>, m: map<ID, Backup>,
                            b: Backup)
    requires DistinctModels(bups) && Undecided(bups, recent, keys, m)
    requires forall k :: WithKey(bups, k) != [] ==> k in keys
    ensures b.modelID in m && m[b.modelID] == b <==> Superseded(bups, recent, b)
  {
    CandidatesAre(bups, b);
    if b in bups && TaggedKeys(b).Some? {
      forall k
        ensures KeptKey(bups, recent, k, b.modelID) <==> k in TaggedKeys(b).value && KeptFor(bups, recent, b, k)
      {
        if WithKey(bups, k) != [] {
          var n := Newest(WithKey(bups, k));
          NewestIn(WithKey(bups, k));
          WithKeyIn(bups, k, n);
          SameModel(bups, b, n);
        }
      }
    }
  }

  lemma SameModel(bups: seq<Backup>, a: Backup, b: Backup)
    requires DistinctModels(bups) && a in bups && b in bups
    ensures a.modelID == b.modelID ==> a == b
  {
    var i :| 0 <= i < |bups| && bups[i] == a;
    var j :| 0 <= j < |bups| && bups[j] == b;
  }

  /** Groups the backups by reason key. */
  method GroupByReason(bups: seq<Backup>) returns (maybeDelete: map<ID, Backup>, bupsByReason: map<string, seq<Backup>>)
    ensures maybeDelete == Candidates(bups) && Grouped(bupsByReason, bups)
  {
    maybeDelete, bupsByReason := map[], map[];
    for i := 0 to |bups|
      invariant maybeDelete == Candidates(bups[..i])
      invariant Grouped(bupsByReason, bups[..i])
    {
      GroupStep(bups, i);
      var tags := KeysForBackup(bups[i]);
      if tags.None? {
        continue;
      }
      maybeDelete := maybeDelete[bups[i].modelID := bups[i]];
      bupsByReason := AddToGroups(bupsByReason, tags.value, bups[i]);
    }
    assert bups[..|bups|] == bups;
  }

  lemma GroupStep(bups: seq<Backup>, i: nat)
    requires i < |bups|
    ensures Candidates(bups[..i + 1]) ==
      if TaggedKeys(bups[i]).Some? then Candidates(bups[..i])[bups[i].modelID := bups[i]] else Candidates(bups[..i])
    ensures forall k ::
      WithKey(bups[..i + 1], k) == WithKey(bups[..i], k) + if HasKey(bups[i], k) then [bups[i]] else []
  {
    assert bups[..i + 1][..i] == bups[..i];
  }

  /** The pieces of the backups in `m`. */
  method PiecesOf(m: map<ID, Backup>) returns (res: set<ID>)
    ensures forall x :: x in res <==> exists id :: id in m && x in {id, m[id].snapshotID, m[id].streamStoreID}
  {
    res := {};
    var left := m.Keys;
    while left != {}
      invariant left <= m.Keys
      invariant forall x :: x in res <==>
        exists id :: id in m.Keys - left && x in {id, m[id].snapshotID, m[id].streamStoreID}
      decreases left
    {
      var bupID :| bupID in left;
      var bup := m[bupID];
      assert m.Keys - (left - {bupID}) == (m.Keys - left) + {bupID};
      res := res + {bupID, bup.snapshotID, bup.streamStoreID};
      left := left - {bupID};
    }
  }

  method CollectOldAssistBases(mostRecentMergeBase: map<string, Time>, bups: seq<Backup>) returns (res: set<ID>)
    requires DistinctModels(bups)
    ensures forall x :: x in res <==> exists b :: Superseded(bups, mostRecentMergeBase, b) && x in AssistPieces(b)
  {
    var maybeDelete, bupsByReason := GroupByReason(bups);
    var left := bupsByReason.Keys;
    ghost var done := {};
    while left != {}
      invariant left + done == bupsByReason.Keys
      invariant Undecided(bups, mostRecentMergeBase, done, maybeDelete)
      decreases left
    {
      var tag :| tag in left;
      var bupSet := SortedByAge(bupsByReason[tag]);
      SortedStartsWithNewest(bupsByReason[tag]);
      UndecidedStep(bups, mostRecentMergeBase, done, maybeDelete, tag);
      if !(bupSet[0].creationTime < TimeOf(mostRecentMergeBase, tag)) {
        maybeDelete := maybeDelete - {bupSet[0].modelID};
      }
      left, done := left - {tag}, done + {tag};
    }
    res := PiecesOf(maybeDelete);
    PiecesAreSuperseded(bups, mostRecentMergeBase, done, maybeDelete, res);
  }

  lemma PiecesAreSuperseded(bups: seq<Backup>, recent: map<string, Time>, keys: set<string>, m: map<ID, Backup>,
                            res: set<ID>)
    requires DistinctModels(bups) && Undecided(bups, recent, keys, m)
    requires forall k :: WithKey(bups, k) != [] ==> k in keys
    requires forall x :: x in res <==> exists id :: id in m && x in {id, m[id].snapshotID, m[id].streamStoreID}
    ensures forall x :: x in res <==> exists b :: Superseded(bups, recent, b) && x in AssistPieces(b)
  {
    CandidateIDs(bups);
    forall b: Backup
      ensures b.modelID in m && m[b.modelID] == b <==> Superseded(bups, recent, b)
    {
      DecidedIsSuperseded(bups, recent, keys, m, b);
    }
  }
}
