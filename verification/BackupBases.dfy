/**
 The bases selected for a backup: fixing up what the finder returned, merging two sets
 of bases, and turning merge bases into assist bases.
 */
module BackupBases {
  import opened Wrappers
  import opened ManifestStore

  datatype Reason = Reason(tenant: string, resource: string, service: string, category: string)

  datatype BackupBase = BackupBase(backup: Option<Backup>, snapshot: Option<Snapshot>, reasons: seq<Reason>)
  {
    /** Backup model, complete snapshot, details and a reason are there. */
    predicate Usable() {
      && backup.Some? && backup.value.stableID != ""
      && snapshot.Some? && snapshot.value.id != "" && !snapshot.value.incomplete
      && backup.value.DetailsRef() != ""
      && reasons != []
    }
  }

  /** `reasonKey`. */
  function ReasonKey(r: Reason): string {
    r.resource + r.service + r.category
  }

  // ---------------------------------------------------------------------------
  // fixupMinRequirements
  // ---------------------------------------------------------------------------

  function UsableOnes(bases: seq<BackupBase>): seq<BackupBase> {
    if bases == [] then []
    else UsableOnes(bases[..|bases| - 1]) + if bases[|bases| - 1].Usable() then [bases[|bases| - 1]] else []
  }

  lemma {:induction false} UsableOnesAre(bases: seq<BackupBase>, b: BackupBase)
    ensures b in UsableOnes(bases) <==>
      && b in bases && b.reasons != []
      && b.backup.Some? && b.backup.value.stableID != ""
      && (b.backup.value.streamStoreID != "" || b.backup.value.detailsID != "")
      && b.snapshot.Some? && b.snapshot.value.id != "" && !b.snapshot.value.incomplete
  {
    if bases != [] {
      UsableOnesAre(bases[..|bases| - 1], b);
    }
  }

  method FixupMinRequirements(baseSet: seq<BackupBase>) returns (res: seq<BackupBase>)
    ensures res == UsableOnes(baseSet)
  {
    res := [];
    for i := 0 to |baseSet|
      invariant res == UsableOnes(baseSet[..i])
    {
      var base := baseSet[i];
      assert baseSet[..i + 1][..i] == baseSet[..i];
      var backupID, deetsID := "", "";
      if base.backup.Some? {
        backupID, deetsID := base.backup.value.stableID, base.backup.value.streamStoreID;
        if deetsID == "" {
          deetsID := base.backup.value.detailsID;
        }
      }
      var snapID, snapIncomplete := "", false;
      if base.snapshot.Some? {
        snapID, snapIncomplete := base.snapshot.value.id, base.snapshot.value.incomplete;
      }
      if backupID == "" || snapID == "" || snapIncomplete || deetsID == "" || |base.reasons| == 0 {
        continue;
      }
      res := res + [base];
    }
    assert baseSet[..|baseSet|] == baseSet;
  }

  // ---------------------------------------------------------------------------
  // fixupReasons
  // ---------------------------------------------------------------------------

  /** How many of the reasons have key `k`. */
  function ReasonKeyCount(reasons: seq<Reason>, toKey: Reason -> string, k: string): nat {
    if reasons == [] then 0
    else ReasonKeyCount(reasons[..|reasons| - 1], toKey, k) + if toKey(reasons[|reasons| - 1]) == k then 1 else 0
  }

  function KeyCount(reasons: seq<Reason>, k: string): nat {
    ReasonKeyCount(reasons, ReasonKey, k)
  }

  predicate HasKeyIn(reasons: seq<Reason>, k: string) {
    exists r :: r in reasons && ReasonKey(r) == k
  }

  predicate Claims(b: BackupBase, k: string) {
    HasKeyIn(b.reasons, k)
  }

  ghost predicate Claimed(bases: seq<BackupBase>, k: string) {
    exists b :: b in bases && Claims(b, k)
  }

  function CreatedAt(b: BackupBase): Time {
    if b.backup.Some? then b.backup.value.creationTime else 0
  }

  function IDOf(b: BackupBase): string {
    if b.backup.Some? then b.backup.value.stableID else ""
  }

  /** `b` claims the key, and no base that claims it is younger. */
  ghost predicate WinsFor(bases: seq<BackupBase>, k: string, b: BackupBase) {
    && b in bases && Claims(b, k)
    && forall x :: x in bases && Claims(x, k) ==> CreatedAt(x) <= CreatedAt(b)
  }

  /** A backup and its snapshot are determined by the backup's ID. */
  ghost predicate IDsIdentify(bases: seq<BackupBase>) {
    forall a, b :: a in bases && b in bases && IDOf(a) == IDOf(b) ==> a.backup == b.backup && a.snapshot == b.snapshot
  }

  ghost predicate SameBackup(a: BackupBase, b: BackupBase) {
    a.backup == b.backup && a.snapshot == b.snapshot
  }

  /** Of the results, only `res[i]` has key `k`, and once. */
  ghost predicate OwnedBy(res: seq<BackupBase>, k: string, i: int) {
    && 0 <= i < |res| && KeyCount(res[i].reasons, k) == 1
    && forall j :: 0 <= j < |res| && j != i ==> KeyCount(res[j].reasons, k) == 0
  }

  /**
   The results share out the claimed keys: each key goes to the ID of exactly one base, that
   of a youngest one among those that claimed it.  A result is one of the bases that won it
   a key, and has no reasons besides.
   */
  ghost predicate Partitions(bases: seq<BackupBase>, res: seq<BackupBase>) {
    && (forall k :: Claimed(bases, k) ==>
         exists i, b :: OwnedBy(res, k, i) && WinsFor(bases, k, b) && IDOf(res[i]) == IDOf(b))
    && (forall i, k :: 0 <= i < |res| && !Claimed(bases, k) ==> KeyCount(res[i].reasons, k) == 0)
    && (forall i :: 0 <= i < |res| ==> WonByItself(bases, res[i]))
    && (forall i, j :: 0 <= i < j < |res| ==> IDOf(res[i]) != IDOf(res[j]))
    && (forall i, r :: 0 <= i < |res| && r in res[i].reasons ==> ClaimedReason(bases, r))
  }

  /** `r` is a reason of one of the bases. */
  ghost predicate ClaimedReason(bases: seq<BackupBase>, r: Reason) {
    exists b :: b in bases && r in b.reasons
  }

  ghost predicate WonByItself(bases: seq<BackupBase>, r: BackupBase) {
    exists k, b :: WinsFor(bases, k, b) && SameBackup(r, b) && KeyCount(r.reasons, k) > 0
  }

  datatype Group = Group(bases: seq<BackupBase>, reason: Reason)

  /** The groups hold exactly the pairs of a base and a key that `has` admits. */
  ghost predicate Grouped(groups: map<string, Group>, has: (BackupBase, string) -> bool) {
    && (forall k :: k in groups <==> exists b :: has(b, k))
    && (forall k, b :: k in groups ==> (b in groups[k].bases <==> has(b, k)))
    && (forall k :: k in groups ==> ReasonKey(groups[k].reason) == k)
  }

  ghost function ClaimsIn(bases: seq<BackupBase>): (BackupBase, string) -> bool {
    (b, k) => b in bases && Claims(b, k)
  }

  ghost function ClaimsAnd(bases: seq<BackupBase>, base: BackupBase,
                           reasons: seq<Reason>): (BackupBase, string) -> bool {
    (b, k) => (b in bases && Claims(b, k)) || (b == base && HasKeyIn(reasons, k))
  }

  ghost predicate GroupedBy(groups: map<string, Group>, bases: seq<BackupBase>) {
    Grouped(groups, ClaimsIn(bases)) && ReasonsFrom(groups, bases)
  }

  ghost predicate ReasonsFrom(groups: map<string, Group>, bases: seq<BackupBase>) {
    forall k :: k in groups ==> ClaimedReason(bases, groups[k].reason)
  }

  lemma HasKeySnoc(reasons: seq<Reason>, n: nat, k: string)
    requires n < |reasons|
    ensures HasKeyIn(reasons[..n + 1], k) <==> HasKeyIn(reasons[..n], k) || ReasonKey(reasons[n]) == k
  {
    assert reasons[..n + 1] == reasons[..n] + [reasons[n]];
    assert reasons[n] in reasons[..n + 1];
  }

  lemma GroupedStep(groups: map<string, Group>, has: (BackupBase, string) -> bool, has': (BackupBase, string) -> bool,
                    base: BackupBase, reason: Reason)
    requires Grouped(groups, has)
    requires OneMore(has, has', base, ReasonKey(reason))
    ensures var k := ReasonKey(reason);
      Grouped(groups[k := Group((if k in groups then groups[k].bases else []) + [base], reason)], has')
  {
    var key := ReasonKey(reason);
    assert has'(base, key);
    forall k, b | has(b, k)
      ensures has'(b, k)
    {
    }
  }

  /** `has'` admits one pair more than `has`. */
  ghost predicate OneMore(has: (BackupBase, string) -> bool, has': (BackupBase, string) -> bool, base: BackupBase,
                          key: string) {
    forall b, k :: has'(b, k) <==> has(b, k) || (b == base && k == key)
  }

  lemma ClaimsStep(bases: seq<BackupBase>, base: BackupBase, n: nat)
    requires n < |base.reasons|
    ensures OneMore(ClaimsAnd(bases, base, base.reasons[..n]), ClaimsAnd(bases, base, base.reasons[..n + 1]),
                    base, ReasonKey(base.reasons[n]))
  {
    var has, has' := ClaimsAnd(bases, base, base.reasons[..n]), ClaimsAnd(bases, base, base.reasons[..n + 1]);
    forall b, k
      ensures has'(b, k) <==> has(b, k) || (b == base && k == ReasonKey(base.reasons[n]))
    {
      HasKeySnoc(base.reasons, n, k);
    }
  }

  lemma ClaimsEnds(bases: seq<BackupBase>, base: BackupBase)
    ensures forall b, k :: ClaimsAnd(bases, base, [])(b, k) <==> ClaimsIn(bases)(b, k)
    ensures forall b, k :: ClaimsIn(bases + [base])(b, k) <==> ClaimsAnd(bases, base, base.reasons)(b, k)
  {
    forall b, k
      ensures ClaimsAnd(bases, base, [])(b, k) <==> ClaimsIn(bases)(b, k)
      ensures ClaimsIn(bases + [base])(b, k) <==> ClaimsAnd(bases, base, base.reasons)(b, k)
    {
      assert Claims(base, k) <==> HasKeyIn(base.reasons, k);
    }
  }

  /** The inner loop: a base joins the group of each of its reasons. */
  method GroupBase(groups: map<string, Group>, ghost bases: seq<BackupBase>, base: BackupBase)
    returns (res: map<string, Group>)
    requires GroupedBy(groups, bases)
    ensures GroupedBy(res, bases + [base])
  {
    res := groups;
    ClaimsEnds(bases, base);
    assert base.reasons[..0] == [];
    for n := 0 to |base.reasons|
      invariant Grouped(res, ClaimsAnd(bases, base, base.reasons[..n]))
      invariant ReasonsFrom(res, bases + [base])
    {
      assert base in bases + [base];
      var reason := base.reasons[n];
      var k := ReasonKey(reason);
      ClaimsStep(bases, base, n);
      GroupedStep(res, ClaimsAnd(bases, base, base.reasons[..n]), ClaimsAnd(bases, base, base.reasons[..n + 1]), base,
          reason);
      var found := if k in res then res[k].bases else [];
      res := res[k := Group(found + [base], reason)];
    }
    assert base.reasons[..|base.reasons|] == base.reasons;
  }

  method GroupByReason(baseSet: seq<BackupBase>) returns (groups: map<string, Group>)
    ensures GroupedBy(groups, baseSet)
  {
    groups := map[];
    for i := 0 to |baseSet|
      invariant GroupedBy(groups, baseSet[..i])
    {
      assert baseSet[..i + 1] == baseSet[..i] + [baseSet[i]];
      groups := GroupBase(groups, baseSet[..i], baseSet[i]);
    }
    assert baseSet[..|baseSet|] == baseSet;
  }

  lemma GroupKeys(groups: map<string, Group>, bases: seq<BackupBase>)
    requires GroupedBy(groups, bases)
    ensures forall k :: k in groups <==> Claimed(bases, k)
  {
    forall k
      ensures (exists b :: ClaimsIn(bases)(b, k)) <==> Claimed(bases, k)
    {
      if b :| b in bases && Claims(b, k) {
        assert ClaimsIn(bases)(b, k);
      }
    }
  }

  /** The head of the group sorted by age; bases of the same age may come in any order. */
  method Youngest(bases: seq<BackupBase>) returns (b: BackupBase)
    requires bases != []
    ensures b in bases && forall x :: x in bases ==> CreatedAt(x) <= CreatedAt(b)
  {
    b := bases[0];
    for i := 1 to |bases|
      invariant b in bases && forall j :: 0 <= j < i ==> CreatedAt(bases[j]) <= CreatedAt(b)
    {
      if CreatedAt(b) < CreatedAt(bases[i]) {
        b := bases[i];
      }
    }
  }

  /** Who owns which key so far; `res` holds the owners by ID. */
  ghost predicate SharedOut(bases: seq<BackupBase>, res: map<string, BackupBase>, owner: map<string, string>) {
    && (forall k :: k in owner ==> Winner(bases, res, k, owner[k]))
    && (forall id :: id in res ==> HasOnly(res[id], id, owner))
    && (forall id :: id in res ==> Owner(bases, res[id], id))
  }

  ghost predicate NoStrangers(bases: seq<BackupBase>, res: map<string, BackupBase>) {
    forall id, r :: id in res && r in res[id].reasons ==> ClaimedReason(bases, r)
  }

  ghost predicate Winner(bases: seq<BackupBase>, res: map<string, BackupBase>, k: string, id: string) {
    id in res && exists b :: WinsFor(bases, k, b) && IDOf(b) == id
  }

  /** `r` has each key it owns once, and no others. */
  ghost predicate HasOnly(r: BackupBase, id: string, owner: map<string, string>) {
    forall k :: KeyCount(r.reasons, k) == if k in owner && owner[k] == id then 1 else 0
  }

  ghost predicate Owner(bases: seq<BackupBase>, r: BackupBase, id: string) {
    IDOf(r) == id && WonByItself(bases, r)
  }

  lemma KeyCountSnoc(reasons: seq<Reason>, r: Reason, k: string)
    ensures KeyCount(reasons + [r], k) == KeyCount(reasons, k) + if ReasonKey(r) == k then 1 else 0
  {
    assert (reasons + [r])[..|reasons|] == reasons;
  }

  lemma GiveKeeps(bases: seq<BackupBase>, res: map<string, BackupBase>, owner: map<string, string>, k: string,
                  keepBase: BackupBase, r: BackupBase)
    requires SharedOut(bases, res, owner) && WinsFor(bases, k, keepBase) && k !in owner
    requires Owner(bases, r, IDOf(keepBase)) && HasOnly(r, IDOf(keepBase), owner[k := IDOf(keepBase)])
    ensures SharedOut(bases, res[IDOf(keepBase) := r], owner[k := IDOf(keepBase)])
  {
    var id := IDOf(keepBase);
    var res', owner' := res[id := r], owner[k := id];
    forall x | x in owner'
      ensures Winner(bases, res', x, owner'[x])
    {
      if x != k {
        assert Winner(bases, res, x, owner[x]);
      }
    }
    forall x | x in res'
      ensures HasOnly(res'[x], x, owner')
    {
      if x != id {
        assert HasOnly(res[x], x, owner);
      }
    }
  }

  /** Gives the reason to the base that is kept for it. */
  method Give(res: map<string, BackupBase>, keepBase: BackupBase, reason: Reason,
              ghost bases: seq<BackupBase>, ghost owner: map<string, string>)
    returns (res': map<string, BackupBase>)
    requires SharedOut(bases, res, owner) && NoStrangers(bases, res)
    requires WinsFor(bases, ReasonKey(reason), keepBase) && ReasonKey(reason) !in owner
    requires ClaimedReason(bases, reason)
    ensures SharedOut(bases, res', owner[ReasonKey(reason) := IDOf(keepBase)]) && NoStrangers(bases, res')
  {
    var id := IDOf(keepBase);
    var b := if id in res then res[id] else keepBase.(reasons := []);
    GivenBase(bases, res, owner, keepBase);
    forall x
      ensures KeyCount(b.reasons + [reason], x) == KeyCount(b.reasons, x) + if x == ReasonKey(reason) then 1 else 0
    {
      KeyCountSnoc(b.reasons, reason, x);
    }
    StillOwner(bases, res, keepBase, reason);
    GiveKeeps(bases, res, owner, ReasonKey(reason), keepBase, b.(reasons := b.reasons + [reason]));
    res' := res[id := b.(reasons := b.reasons + [reason])];
  }

  /** The entry a reason is added to: the one under the base's ID, or a new one without reasons. */
  lemma GivenBase(bases: seq<BackupBase>, res: map<string, BackupBase>, owner: map<string, string>,
                  keepBase: BackupBase)
    requires SharedOut(bases, res, owner)
    ensures var id := IDOf(keepBase);
      HasOnly(if id in res then res[id] else keepBase.(reasons := []), id, owner)
  {
    if IDOf(keepBase) !in res {
      assert forall k :: k in owner ==> Winner(bases, res, k, owner[k]);
    }
  }

  lemma StillOwner(bases: seq<BackupBase>, res: map<string, BackupBase>, keepBase: BackupBase, reason: Reason)
    requires forall id :: id in res ==> Owner(bases, res[id], id)
    requires WinsFor(bases, ReasonKey(reason), keepBase)
    ensures var b := if IDOf(keepBase) in res then res[IDOf(keepBase)] else keepBase.(reasons := []);
      Owner(bases, b.(reasons := b.reasons + [reason]), IDOf(keepBase))
  {
    var b := if IDOf(keepBase) in res then res[IDOf(keepBase)] else keepBase.(reasons := []);
    if IDOf(keepBase) in res {
      var k, w :| WinsFor(bases, k, w) && SameBackup(b, w) && KeyCount(b.reasons, k) > 0;
      KeyCountSnoc(b.reasons, reason, k);
      assert WinsFor(bases, k, w) && SameBackup(b.(reasons := b.reasons + [reason]), w);
    } else {
      KeyCountSnoc([], reason, ReasonKey(reason));
      assert SameBackup(b.(reasons := b.reasons + [reason]), keepBase);
    }
  }

  method ValuesOf(m: map<string, BackupBase>) returns (res: seq<BackupBase>, ghost ids: seq<string>)
    ensures |ids| == |res| && (forall i :: 0 <= i < |ids| ==> ids[i] in m && res[i] == m[ids[i]])
    ensures forall id :: id in m ==> id in ids
    ensures forall i, j :: 0 <= i < j < |ids| ==> ids[i] != ids[j]
  {
    res, ids := [], [];
    var left := m.Keys;
    while left != {}
      invariant left <= m.Keys
      invariant |ids| == |res| && (forall i :: 0 <= i < |ids| ==> ids[i] in m && ids[i] !in left && res[i] == m[ids[i]])
      invariant forall id :: id in m && id !in left ==> id in ids
      invariant forall i, j :: 0 <= i < j < |ids| ==> ids[i] != ids[j]
      decreases left
    {
      var id :| id in left;
      res, ids, left := res + [m[id]], ids + [id], left - {id};
    }
  }

  method FixupReasons(baseSet: seq<BackupBase>) returns (res: seq<BackupBase>)
    ensures Partitions(baseSet, res)
    ensures AllApart(baseSet) ==> forall r :: ClaimedReason(baseSet, r) ==> KeptOnce(baseSet, res, r)
  {
    var basesByReason := GroupByReason(baseSet);
    GroupKeys(basesByReason, baseSet);
    var kept: map<string, BackupBase> := map[];
    ghost var owner: map<string, string> := map[];
    var left := basesByReason.Keys;
    while left != {}
      invariant left <= basesByReason.Keys && owner.Keys == basesByReason.Keys - left
      invariant SharedOut(baseSet, kept, owner) && NoStrangers(baseSet, kept)
      decreases left
    {
      var k :| k in left;
      var group := basesByReason[k];
      var keepBase := Youngest(group.bases);
      kept := Give(kept, keepBase, group.reason, baseSet, owner);
      owner := owner[k := IDOf(keepBase)];
      left := left - {k};
    }
    ghost var ids;
    res, ids := ValuesOf(kept);
    SharedOutPartitions(baseSet, kept, owner, res, ids);
    if AllApart(baseSet) {
      forall r | ClaimedReason(baseSet, r)
        ensures KeptOnce(baseSet, res, r)
      {
        EachReasonOnce(baseSet, res, r);
      }
    }
  }

  lemma SharedOutPartitions(bases: seq<BackupBase>, m: map<string, BackupBase>, owner: map<string, string>,
                            res: seq<BackupBase>, ids: seq<string>)
    requires SharedOut(bases, m, owner) && NoStrangers(bases, m) && forall k :: k in owner <==> Claimed(bases, k)
    requires |ids| == |res| && (forall i :: 0 <= i < |ids| ==> ids[i] in m && res[i] == m[ids[i]])
    requires forall id :: id in m ==> id in ids
    requires forall i, j :: 0 <= i < j < |ids| ==> ids[i] != ids[j]
    ensures Partitions(bases, res)
  {
    forall i | 0 <= i < |res|
      ensures WonByItself(bases, res[i]) && IDOf(res[i]) == ids[i]
    {
      assert Owner(bases, m[ids[i]], ids[i]);
    }
    forall k | Claimed(bases, k)
      ensures exists i, b :: OwnedBy(res, k, i) && WinsFor(bases, k, b) && IDOf(res[i]) == IDOf(b)
    {
      assert Winner(bases, m, k, owner[k]);
      var b :| WinsFor(bases, k, b) && IDOf(b) == owner[k];
      var i :| 0 <= i < |ids| && ids[i] == owner[k];
      OwnerOwns(bases, m, owner, res, ids, k, i);
    }
  }

  lemma OwnerOwns(bases: seq<BackupBase>, m: map<string, BackupBase>, owner: map<string, string>,
                  res: seq<BackupBase>, ids: seq<string>, k: string, i: int)
    requires SharedOut(bases, m, owner) && k in owner
    requires |ids| == |res| && (forall j :: 0 <= j < |ids| ==> ids[j] in m && res[j] == m[ids[j]])
    requires forall j, n :: 0 <= j < n < |ids| ==> ids[j] != ids[n]
    requires 0 <= i < |ids| && ids[i] == owner[k]
    ensures OwnedBy(res, k, i)
  {
    forall j | 0 <= j < |res|
      ensures KeyCount(res[j].reasons, k) == if j == i then 1 else 0
    {
      assert HasOnly(m[ids[j]], ids[j], owner);
    }
  }

  // ---------------------------------------------------------------------------
  // Shared out by reasons
  // ---------------------------------------------------------------------------

  /** Reasons that differ in resource, service or category, or in tenant, read differently when these are joined. */
  ghost predicate Apart(q: Reason, r: Reason) {
    q.resource + (q.service + q.category) == r.resource + (r.service + r.category) ==> q == r
  }

  ghost predicate AllApart(bases: seq<BackupBase>) {
    forall q, r :: ClaimedReason(bases, q) && ClaimedReason(bases, r) ==> Apart(q, r)
  }

  /** Of the results, only `res[i]` has reason `r`, and once. */
  ghost predicate HeldOnce(res: seq<BackupBase>, r: Reason, i: int) {
    && 0 <= i < |res| && multiset(res[i].reasons)[r] == 1
    && forall j :: 0 <= j < |res| && j != i ==> r !in res[j].reasons
  }

  /** `b` has the reason, and no base that has it is younger. */
  ghost predicate YoungestFor(bases: seq<BackupBase>, r: Reason, b: BackupBase) {
    && b in bases && r in b.reasons
    && forall x :: x in bases && r in x.reasons && x.backup.Some? && b.backup.Some? ==>
         x.backup.value.creationTime <= b.backup.value.creationTime
  }

  predicate SameID(a: BackupBase, b: BackupBase) {
    a.backup.Some? && b.backup.Some? ==> a.backup.value.stableID == b.backup.value.stableID
  }

  /** One result has the reason, once, and its backup is a youngest one with that reason. */
  ghost predicate KeptOnce(bases: seq<BackupBase>, res: seq<BackupBase>, r: Reason) {
    exists i, b :: HeldOnce(res, r, i) && YoungestFor(bases, r, b) && SameID(res[i], b)
  }

  lemma SameKeyApart(q: Reason, r: Reason)
    requires Apart(q, r) && ReasonKey(q) == ReasonKey(r)
    ensures q == r
  {
    assert q.resource + (q.service + q.category) == ReasonKey(q);
    assert r.resource + (r.service + r.category) == ReasonKey(r);
  }

  lemma {:induction false} CountedByKey(reasons: seq<Reason>, r: Reason)
    ensures multiset(reasons)[r] <= KeyCount(reasons, ReasonKey(r))
    ensures KeyCount(reasons, ReasonKey(r)) > 0 ==> exists q :: q in reasons && ReasonKey(q) == ReasonKey(r)
  {
    if reasons != [] {
      var init, last := reasons[..|reasons| - 1], reasons[|reasons| - 1];
      assert reasons == init + [last];
      CountedByKey(init, r);
    }
  }

  /**
   If reasons read differently when they are joined, each claimed reason is kept once, by one
   result, whose backup is a youngest one among those of the bases with that reason.
   */
  lemma EachReasonOnce(bases: seq<BackupBase>, res: seq<BackupBase>, r: Reason)
    requires Partitions(bases, res) && AllApart(bases) && ClaimedReason(bases, r)
    ensures KeptOnce(bases, res, r)
  {
    var k := ReasonKey(r);
    var b0 :| b0 in bases && r in b0.reasons;
    assert Claims(b0, k) && Claimed(bases, k);
    var i, b :| OwnedBy(res, k, i) && WinsFor(bases, k, b) && IDOf(res[i]) == IDOf(b);
    CountedByKey(res[i].reasons, r);
    var q :| q in res[i].reasons && ReasonKey(q) == k;
    SameKeyApart(q, r);
    OnlyHolder(res, r, i);
    ClaimsByReason(bases, b, r);
  }

  lemma OnlyHolder(res: seq<BackupBase>, r: Reason, i: int)
    requires OwnedBy(res, ReasonKey(r), i) && r in res[i].reasons
    ensures HeldOnce(res, r, i)
  {
    forall j | 0 <= j < |res|
      ensures multiset(res[j].reasons)[r] == if j == i then 1 else 0
    {
      CountedByKey(res[j].reasons, r);
      assert j == i ==> multiset(res[j].reasons)[r] > 0;
    }
    forall j | 0 <= j < |res| && j != i
      ensures r !in res[j].reasons
    {
      assert r !in multiset(res[j].reasons);
    }
  }

  lemma ClaimsByReason(bases: seq<BackupBase>, b: BackupBase, r: Reason)
    requires AllApart(bases) && ClaimedReason(bases, r) && WinsFor(bases, ReasonKey(r), b)
    ensures YoungestFor(bases, r, b)
  {
    var q :| q in b.reasons && ReasonKey(q) == ReasonKey(r);
    assert ClaimedReason(bases, q);
    SameKeyApart(q, r);
    assert forall x :: x in bases && r in x.reasons ==> Claims(x, ReasonKey(r));
  }

  // ---------------------------------------------------------------------------
  // The order in which the map of keys is walked does not matter
  // ---------------------------------------------------------------------------

  /** Different backups that claim a key were created at different times. */
  ghost predicate NoTies(bases: seq<BackupBase>) {
    forall a, b, k :: a in bases && b in bases && Claims(a, k) && Claims(b, k) && CreatedAt(a) == CreatedAt(b) ==>
      IDOf(a) == IDOf(b)
  }

  /** A result has a claimed key if and only if it is the winner's. */
  lemma HasWhatItWins(bases: seq<BackupBase>, res: seq<BackupBase>, i: int, k: string, w: BackupBase)
    requires IDsIdentify(bases) && NoTies(bases) && Partitions(bases, res) && 0 <= i < |res| && WinsFor(bases, k, w)
    ensures KeyCount(res[i].reasons, k) == if IDOf(res[i]) == IDOf(w) then 1 else 0
  {
    assert Claimed(bases, k);
    var o, b :| OwnedBy(res, k, o) && WinsFor(bases, k, b) && IDOf(res[o]) == IDOf(b);
    assert i < o ==> IDOf(res[i]) != IDOf(res[o]);
    assert o < i ==> IDOf(res[o]) != IDOf(res[i]);
  }

  lemma {:induction false} SomeKey(reasons: seq<Reason>) returns (k: string)
    requires reasons != []
    ensures KeyCount(reasons, k) > 0
  {
    k := ReasonKey(reasons[|reasons| - 1]);
  }

  /** If IDs identify backups, the result that has a key is the winner itself. */
  lemma WinnerOf(bases: seq<BackupBase>, res: seq<BackupBase>, k: string) returns (i: int, w: BackupBase)
    requires IDsIdentify(bases) && Partitions(bases, res) && Claimed(bases, k)
    ensures OwnedBy(res, k, i) && WinsFor(bases, k, w) && SameBackup(res[i], w)
  {
    i, w :| OwnedBy(res, k, i) && WinsFor(bases, k, w) && IDOf(res[i]) == IDOf(w);
    var x, b :| WinsFor(bases, x, b) && SameBackup(res[i], b) && KeyCount(res[i].reasons, x) > 0;
    assert b in bases && w in bases && IDOf(b) == IDOf(w);
  }

  lemma HasReasons(bases: seq<BackupBase>, res: seq<BackupBase>, i: int)
    requires Partitions(bases, res) && 0 <= i < |res|
    ensures res[i].reasons != []
  {
    assert WonByItself(bases, res[i]);
  }

  /** Without ties, any two ways to share out the keys give the same bases the same keys. */
  lemma FixupIgnoresMapOrder(bases: seq<BackupBase>, a: seq<BackupBase>, b: seq<BackupBase>, i: int) returns (j: int)
    requires IDsIdentify(bases) && NoTies(bases) && Partitions(bases, a) && Partitions(bases, b) && 0 <= i < |a|
    ensures 0 <= j < |b| && SameBackup(a[i], b[j])
    ensures forall k :: KeyCount(a[i].reasons, k) == KeyCount(b[j].reasons, k)
  {
    HasReasons(bases, a, i);
    var k0 := SomeKey(a[i].reasons);
    assert Claimed(bases, k0);
    var i0, x := WinnerOf(bases, a, k0);
    var j0, y := WinnerOf(bases, b, k0);
    assert i0 == i;
    j := j0;
    forall k
      ensures KeyCount(a[i].reasons, k) == KeyCount(b[j].reasons, k)
    {
      if Claimed(bases, k) {
        var o, w := WinnerOf(bases, a, k);
        HasWhatItWins(bases, a, i, k, w);
        HasWhatItWins(bases, b, j, k, w);
      }
    }
  }

  // ---------------------------------------------------------------------------
  // The selected bases
  // ---------------------------------------------------------------------------

  /** How often the bases together have key `k`. */
  function BaseKeyCount(bases: seq<BackupBase>, toKey: Reason -> string, k: string): nat {
    if bases == [] then 0
    else BaseKeyCount(bases[..|bases| - 1], toKey, k) + ReasonKeyCount(bases[|bases| - 1].reasons, toKey, k)
  }

  function Unseen(reasons: seq<Reason>, toKey: Reason -> string, seen: set<string>): seq<Reason> {
    if reasons == [] then []
    else
      Unseen(reasons[..|reasons| - 1], toKey, seen)
      + if toKey(reasons[|reasons| - 1]) in seen then [] else [reasons[|reasons| - 1]]
  }

  /** The bases with the reasons whose key was not seen; a base left without reasons is dropped. */
  function Missing(toKey: Reason -> string, seen: set<string>, toCheck: seq<BackupBase>): seq<BackupBase> {
    if toCheck == [] then []
    else
      var base := toCheck[|toCheck| - 1];
      var use := Unseen(base.reasons, toKey, seen);
      Missing(toKey, seen, toCheck[..|toCheck| - 1]) + if use == [] then [] else [base.(reasons := use)]
  }

  lemma {:induction false} UnseenCount(reasons: seq<Reason>, toKey: Reason -> string, seen: set<string>, k: string)
    ensures ReasonKeyCount(Unseen(reasons, toKey, seen), toKey, k) ==
      if k in seen then 0 else ReasonKeyCount(reasons, toKey, k)
  {
    if reasons != [] {
      var init, r := reasons[..|reasons| - 1], reasons[|reasons| - 1];
      UnseenCount(init, toKey, seen, k);
      var kept := Unseen(init, toKey, seen);
      assert (kept + [r])[..|kept|] == kept && kept + [] == kept;
    }
  }

  lemma {:induction false} CountAppend(a: seq<BackupBase>, b: seq<BackupBase>, toKey: Reason -> string, k: string)
    ensures BaseKeyCount(a + b, toKey, k) == BaseKeyCount(a, toKey, k) + BaseKeyCount(b, toKey, k)
  {
    if b == [] {
      assert a + b == a;
    } else {
      CountAppend(a, b[..|b| - 1], toKey, k);
      assert (a + b)[..|a + b| - 1] == a + b[..|b| - 1];
    }
  }

  /** Exactly the keys not seen are taken over, as often as they were there. */
  lemma {:induction false} MissingCount(toKey: Reason -> string, seen: set<string>, toCheck: seq<BackupBase>, k: string)
    ensures BaseKeyCount(Missing(toKey, seen, toCheck), toKey, k) ==
      if k in seen then 0 else BaseKeyCount(toCheck, toKey, k)
  {
    if toCheck != [] {
      var init, base := toCheck[..|toCheck| - 1], toCheck[|toCheck| - 1];
      var use := Unseen(base.reasons, toKey, seen);
      MissingCount(toKey, seen, init, k);
      UnseenCount(base.reasons, toKey, seen, k);
      CountAppend(Missing(toKey, seen, init), if use == [] then [] else [base.(reasons := use)], toKey, k);
    }
  }

  ghost predicate Sublist(a: seq<Reason>, b: seq<Reason>) {
    if b == [] then a == []
    else Sublist(a, b[..|b| - 1]) || (a != [] && a[|a| - 1] == b[|b| - 1] && Sublist(a[..|a| - 1], b[..|b| - 1]))
  }

  /** `b` is `o`, for some of its reasons only, in the same order, and none that was seen. */
  ghost predicate TakenOver(toKey: Reason -> string, seen: set<string>, b: BackupBase, o: BackupBase) {
    SameBackup(b, o) && Sublist(b.reasons, o.reasons) && forall r :: r in b.reasons ==> toKey(r) !in seen
  }

  lemma {:induction false} UnseenIsSublist(reasons: seq<Reason>, toKey: Reason -> string, seen: set<string>)
    ensures Sublist(Unseen(reasons, toKey, seen), reasons)
    ensures forall r :: r in Unseen(reasons, toKey, seen) ==> toKey(r) !in seen
  {
    if reasons != [] {
      var init, r := reasons[..|reasons| - 1], reasons[|reasons| - 1];
      UnseenIsSublist(init, toKey, seen);
      var kept := Unseen(init, toKey, seen);
      if toKey(r) in seen {
        assert Unseen(reasons, toKey, seen) == kept;
      } else {
        assert Unseen(reasons, toKey, seen) == kept + [r];
        assert (kept + [r])[..|kept|] == kept;
        assert Sublist(kept + [r], reasons);
      }
    }
  }

  /** Bases that are taken over are bases of the other side. */
  lemma {:induction false} MissingAre(toKey: Reason -> string, seen: set<string>, toCheck: seq<BackupBase>,
                                      b: BackupBase)
    requires b in Missing(toKey, seen, toCheck)
    ensures exists o :: o in toCheck && TakenOver(toKey, seen, b, o)
  {
    var init, base := toCheck[..|toCheck| - 1], toCheck[|toCheck| - 1];
    if b in Missing(toKey, seen, init) {
      MissingAre(toKey, seen, init, b);
      var o :| o in init && TakenOver(toKey, seen, b, o);
      assert o in toCheck;
    } else {
      UnseenIsSublist(base.reasons, toKey, seen);
      assert TakenOver(toKey, seen, b, base);
    }
  }

  method GetMissingBases(toKey: Reason -> string, seen: set<string>, toCheck: seq<BackupBase>)
    returns (res: seq<BackupBase>)
    ensures res == Missing(toKey, seen, toCheck)
  {
    res := [];
    for i := 0 to |toCheck|
      invariant res == Missing(toKey, seen, toCheck[..i])
    {
      var base := toCheck[i];
      assert toCheck[..i + 1][..i] == toCheck[..i];
      var useReasons := [];
      for j := 0 to |base.reasons|
        invariant useReasons == Unseen(base.reasons[..j], toKey, seen)
      {
        assert base.reasons[..j + 1][..j] == base.reasons[..j];
        if toKey(base.reasons[j]) in seen {
          continue;
        }
        useReasons := useReasons + [base.reasons[j]];
      }
      assert base.reasons[..|base.reasons|] == base.reasons;
      if |useReasons| > 0 {
        res := res + [base.(reasons := useReasons)];
      }
    }
    assert toCheck[..|toCheck|] == toCheck;
  }

  /** The keys of all reasons of the bases. */
  method KeysOf(toKey: Reason -> string, bases: seq<BackupBase>) returns (keys: set<string>)
    ensures forall k :: k in keys <==> BaseKeyCount(bases, toKey, k) > 0
  {
    keys := {};
    for i := 0 to |bases|
      invariant forall k :: k in keys <==> BaseKeyCount(bases[..i], toKey, k) > 0
    {
      var rs := bases[i].reasons;
      assert bases[..i + 1][..i] == bases[..i];
      for j := 0 to |rs|
        invariant forall k :: k in keys <==>
          BaseKeyCount(bases[..i], toKey, k) > 0 || ReasonKeyCount(rs[..j], toKey, k) > 0
      {
        assert rs[..j + 1][..j] == rs[..j];
        keys := keys + {toKey(rs[j])};
      }
      assert rs[..|rs|] == rs;
    }
    assert bases[..|bases|] == bases;
  }

  class Bases {
    var mergeBases: seq<BackupBase>
    var assistBases: seq<BackupBase>
    var disableAssistBases: bool

    constructor (mergeBases: seq<BackupBase>, assistBases: seq<BackupBase>)
      ensures this.mergeBases == mergeBases && this.assistBases == assistBases && !disableAssistBases
    {
      this.mergeBases, this.assistBases, disableAssistBases := mergeBases, assistBases, false;
    }

    function SnapshotAssistBases(): seq<BackupBase>
      reads this
    {
      if disableAssistBases then [] else mergeBases + assistBases
    }

    function UniqueAssistBases(): seq<BackupBase>
      reads this
    {
      if disableAssistBases then [] else assistBases
    }

    predicate IsEmpty()
      reads this
    {
      |mergeBases| == 0 && |UniqueAssistBases()| == 0
    }

    /** `b` comes from the other side's merge bases, for keys that no merge base of the receiver has. */
    ghost predicate TakenOverMerge(toKey: Reason -> string, other: Bases, b: BackupBase)
      reads this, other
    {
      exists o :: o in other.mergeBases && SameBackup(b, o) && Sublist(b.reasons, o.reasons)
                  && forall r :: r in b.reasons ==> MergeCount(toKey, toKey(r)) == 0
    }

    ghost predicate TakenOverAssist(toKey: Reason -> string, other: Bases, b: BackupBase)
      reads this, other
    {
      exists o :: o in other.UniqueAssistBases() && SameBackup(b, o) && Sublist(b.reasons, o.reasons)
                  && forall r :: r in b.reasons ==>
                     MergeCount(toKey, toKey(r)) == 0 && AssistCount(toKey, toKey(r)) == 0
    }

    /** How often merge bases have key `k`. */
    ghost function MergeCount(toKey: Reason -> string, k: string): nat
      reads this
    {
      BaseKeyCount(mergeBases, toKey, k)
    }

    ghost function AssistCount(toKey: Reason -> string, k: string): nat
      reads this
    {
      BaseKeyCount(UniqueAssistBases(), toKey, k)
    }

    /** A merge base becomes an assist base; kopia still uses the same snapshots. */
    method ConvertToAssistBase(backupID: string)
      requires forall b :: b in mergeBases ==> b.backup.Some?
      modifies this
      ensures disableAssistBases == old(disableAssistBases)
      ensures multiset(SnapshotAssistBases()) == old(multiset(SnapshotAssistBases()))
      ensures if i :| 0 <= i < |old(mergeBases)| && FirstWithID(old(mergeBases), backupID, i)
              then
                && mergeBases == old(mergeBases)[..i] + old(mergeBases)[i + 1..]
                && assistBases == old(assistBases) + [old(mergeBases)[i]]
              else mergeBases == old(mergeBases) && assistBases == old(assistBases)
    {
      var idx := 0;
      while idx < |mergeBases| && IDOf(mergeBases[idx]) != backupID
        invariant 0 <= idx <= |mergeBases|
        invariant forall j :: 0 <= j < idx ==> IDOf(mergeBases[j]) != backupID
      {
        idx := idx + 1;
      }
      if idx < |mergeBases| {
        assert FirstWithID(mergeBases, backupID, idx);
        MovedBase(mergeBases, assistBases, idx);
        assistBases := assistBases + [mergeBases[idx]];
        mergeBases := mergeBases[..idx] + mergeBases[idx + 1..];
      }
    }

    method DisableMergeBases()
      modifies this
      ensures mergeBases == [] && assistBases == old(assistBases + mergeBases)
      ensures disableAssistBases == old(disableAssistBases)
      ensures multiset(SnapshotAssistBases()) == old(multiset(SnapshotAssistBases()))
    {
      assistBases := assistBases + mergeBases;
      mergeBases := [];
    }

    method DisableAssistBases()
      modifies this`disableAssistBases
      ensures SnapshotAssistBases() == [] && UniqueAssistBases() == [] && disableAssistBases
    {
      disableAssistBases := true;
    }

    /**
     Every key of either side's merge bases is covered, by the receiver's if it has one.
     The other side's assist bases are used only for keys the receiver does not have at all.
     */
    method MergeBackupBases(other: Bases?, toKey: Reason -> string) returns (res: Bases)
      ensures forall k :: (res.MergeCount(toKey, k) ==
        MergeCount(toKey, k) + (if other == null || MergeCount(toKey, k) > 0 then 0 else other.MergeCount(toKey, k)))
      ensures forall k :: (res.AssistCount(toKey, k) ==
        AssistCount(toKey, k)
        + (if other == null || MergeCount(toKey, k) > 0 ||
            AssistCount(toKey, k) > 0 then 0 else other.AssistCount(toKey, k)))
      ensures forall b :: b in mergeBases ==> b in res.mergeBases
      ensures forall b :: b in UniqueAssistBases() ==> b in res.UniqueAssistBases()
      ensures forall b :: b in res.mergeBases ==>
        b in mergeBases || (other != null && (res == other || TakenOverMerge(toKey, other, b)))
      ensures forall b :: b in res.UniqueAssistBases() ==>
        b in UniqueAssistBases() || (other != null && (res == other || TakenOverAssist(toKey, other, b)))
    {
      if other == null || other.IsEmpty() {
        return this;
      }
      if IsEmpty() {
        return other;
      }
      var toMerge := KeysOf(toKey, mergeBases);
      var assistKeys := KeysOf(toKey, UniqueAssistBases());
      var assist := toMerge + assistKeys;
      var addMerge := GetMissingBases(toKey, toMerge, other.mergeBases);
      var addAssist := GetMissingBases(toKey, assist, other.UniqueAssistBases());
      res := new Bases(addMerge + mergeBases, addAssist + UniqueAssistBases());
      forall k
        ensures res.MergeCount(toKey, k) ==
          MergeCount(toKey, k) + if k in toMerge then 0 else other.MergeCount(toKey, k)
        ensures res.AssistCount(toKey, k) ==
          AssistCount(toKey, k) + if k in assist then 0 else other.AssistCount(toKey, k)
      {
        CountAppend(addMerge, mergeBases, toKey, k);
        MissingCount(toKey, toMerge, other.mergeBases, k);
        CountAppend(addAssist, UniqueAssistBases(), toKey, k);
        MissingCount(toKey, assist, other.UniqueAssistBases(), k);
      }
      forall b | b in addMerge
        ensures TakenOverMerge(toKey, other, b)
      {
        MissingAre(toKey, toMerge, other.mergeBases, b);
      }
      forall b | b in addAssist
        ensures TakenOverAssist(toKey, other, b)
      {
        MissingAre(toKey, assist, other.UniqueAssistBases(), b);
      }
    }
  }

  lemma MovedBase(a: seq<BackupBase>, b: seq<BackupBase>, i: nat)
    requires i < |a|
    ensures multiset((a[..i] + a[i + 1..]) + (b + [a[i]])) == multiset(a + b)
  {
    assert a == a[..i] + [a[i]] + a[i + 1..];
  }

  predicate FirstWithID(bases: seq<BackupBase>, backupID: string, i: nat)
    requires i < |bases|
  {
    IDOf(bases[i]) == backupID && forall j :: 0 <= j < i ==> IDOf(bases[j]) != backupID
  }
}
