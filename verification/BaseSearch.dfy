/**
 `FindBases`: the search for each reason, coalesced by backup and fixed up.
 */
module BaseSearch {
  import opened Wrappers
  import opened ManifestStore
  import opened BaseFinder
  import opened BackupBases

  /** The tags searched for: the resource, the service with the category, and the given ones. */
  function SearchTags(r: Reason, tags: set<string>): set<string> {
    {TagKey(r.resource), TagKey(r.service + r.category)} + set t | t in tags :: TagKey(t)
  }

  function Metas(st: Store, r: Reason, tags: set<string>): seq<Snapshot> {
    FindManifests(st.snapshots, SearchTags(r, tags))
  }

  datatype Kind = MergeKind | AssistKind

  /** `f` is what the search for `r` should find. */
  ghost predicate Answers(kind: Kind, st: Store, tags: set<string>, r: Reason, f: FoundBase) {
    exists m :: IsNewest(kind, st, Metas(st, r, tags), m) && Candidate(st, m) == Some(f)
  }

  ghost predicate IsNewest(kind: Kind, st: Store, metas: seq<Snapshot>, m: Snapshot) {
    if kind.MergeKind? then NewestMerge(st, metas, m) else NewestAssist(st, metas, m)
  }

  ghost predicate HasAnswer(kind: Kind, st: Store, tags: set<string>, r: Reason) {
    if kind.MergeKind? then exists m :: m in Metas(st, r, tags) && CanMerge(st, m)
    else !NoUsefulAssist(st, Metas(st, r, tags))
  }

  predicate Complete(b: BackupBase) {
    b.backup.Some? && b.snapshot.Some? && b.reasons != []
  }

  function FoundOf(b: BackupBase): FoundBase
    requires Complete(b)
  {
    FoundBase(b.backup.value, b.snapshot.value)
  }

  /** Every base in `m` answers each of its reasons. */
  ghost predicate AllAnswer(kind: Kind, st: Store, tags: set<string>, done: set<Reason>, m: map<string, BackupBase>) {
    forall id :: id in m ==> IDOf(m[id]) == id && AnswersAll(kind, st, tags, done, m[id])
  }

  ghost predicate AnswersAll(kind: Kind, st: Store, tags: set<string>, done: set<Reason>, b: BackupBase) {
    Complete(b) && forall r :: r in b.reasons ==> r in done && Answers(kind, st, tags, r, FoundOf(b))
  }

  ghost predicate AllHeld(kind: Kind, st: Store, tags: set<string>, done: set<Reason>, m: map<string, BackupBase>) {
    forall r :: r in done && HasAnswer(kind, st, tags, r) ==> HeldBy(m, r)
  }

  ghost predicate HeldBy(m: map<string, BackupBase>, r: Reason) {
    exists id :: id in m && r in m[id].reasons
  }

  ghost predicate Collected(kind: Kind, st: Store, tags: set<string>, done: set<Reason>, m: map<string, BackupBase>) {
    AllAnswer(kind, st, tags, done, m) && AllHeld(kind, st, tags, done, m)
  }

  /** What the search for one reason returned. */
  ghost predicate Outcome(kind: Kind, st: Store, tags: set<string>, r: Reason, found: Option<FoundBase>) {
    match found
    case Some(f) => Answers(kind, st, tags, r, f)
    case None => !HasAnswer(kind, st, tags, r)
  }

  /** A stable ID leads to one model, and that to one snapshot. */
  lemma CandidateByID(st: Store, a: Snapshot, b: Snapshot)
    requires Candidate(st, a).Some? && Candidate(st, b).Some?
    requires Candidate(st, a).value.backup.stableID == Candidate(st, b).value.backup.stableID
    ensures Candidate(st, a) == Candidate(st, b)
  {
    var x, y := Candidate(st, a).value, Candidate(st, b).value;
    StableIDOf(st, x.snapshot.backupID);
    StableIDOf(st, y.snapshot.backupID);
    assert x.backup == y.backup;
    LoadedIn(st.snapshots, a.id);
    LoadedIn(st.snapshots, b.id);
  }

  lemma {:induction false} FoundWithStableID(bs: seq<ListedBackup>, stableID: string, lb: ListedBackup)
    ensures lb in WithStableID(bs, stableID) ==> lb.backup.stableID == stableID
  {
    if bs != [] {
      FoundWithStableID(bs[..|bs| - 1], stableID, lb);
    }
  }

  lemma StableIDOf(st: Store, stableID: string)
    ensures GetBackup(st.backups, stableID).Some? ==>
      GetBackup(st.backups, stableID).value.stableID == stableID && stableID != ""
  {
    var found := WithStableID(st.backups, stableID);
    if |found| == 1 {
      FoundWithStableID(st.backups, stableID, found[0]);
    }
  }

  /** Adds what was found for a reason to the bases found so far. */
  method Collect(kind: Kind, st: Store, tags: set<string>, ghost done: set<Reason>, m: map<string, BackupBase>,
                 r: Reason, found: Option<FoundBase>)
    returns (res: map<string, BackupBase>)
    requires Collected(kind, st, tags, done, m) && Outcome(kind, st, tags, r, found)
    ensures Collected(kind, st, tags, done + {r}, res)
  {
    if found.None? {
      return m;
    }
    var id := found.value.backup.stableID;
    var base := BackupBase(Some(found.value.backup), Some(found.value.snapshot), [r]);
    if id in m {
      SameAnswer(kind, st, tags, done, m, r, found.value);
      base := m[id].(reasons := m[id].reasons + [r]);
    }
    res := m[id := base];
    CollectKeeps(kind, st, tags, done, m, r, base);
  }

  lemma CollectKeeps(kind: Kind, st: Store, tags: set<string>, done: set<Reason>, m: map<string, BackupBase>,
                     r: Reason, base: BackupBase)
    requires Collected(kind, st, tags, done, m)
    requires AnswersAll(kind, st, tags, done + {r}, base)
    requires IDOf(base) in m ==> base.reasons == m[IDOf(base)].reasons + [r]
    requires r in base.reasons
    ensures Collected(kind, st, tags, done + {r}, m[IDOf(base) := base])
  {
    var res := m[IDOf(base) := base];
    forall id | id in res
      ensures IDOf(res[id]) == id && AnswersAll(kind, st, tags, done + {r}, res[id])
    {
      assert id in m ==> AnswersAll(kind, st, tags, done, m[id]);
    }
    forall x | x in done + {r} && HasAnswer(kind, st, tags, x)
      ensures HeldBy(res, x)
    {
      StillHeld(m, base, r, x);
    }
  }

  lemma StillHeld(m: map<string, BackupBase>, base: BackupBase, r: Reason, x: Reason)
    requires x == r || HeldBy(m, x)
    requires IDOf(base) in m ==> base.reasons == m[IDOf(base)].reasons + [r]
    requires r in base.reasons
    ensures HeldBy(m[IDOf(base) := base], x)
  {
    var res := m[IDOf(base) := base];
    if x == r {
      assert r in res[IDOf(base)].reasons;
    } else {
      var i :| i in m && x in m[i].reasons;
      assert x in res[i].reasons;
    }
  }

  /** Bases found under the same ID are the same backup. */
  lemma SameAnswer(kind: Kind, st: Store, tags: set<string>, done: set<Reason>, m: map<string, BackupBase>, r: Reason,
                   f: FoundBase)
    requires AllAnswer(kind, st, tags, done, m) && Answers(kind, st, tags, r, f) && f.backup.stableID in m
    ensures Complete(m[f.backup.stableID]) && FoundOf(m[f.backup.stableID]) == f
  {
    var b := m[f.backup.stableID];
    var r0 := b.reasons[0];
    assert r0 in b.reasons;
    var x :| IsNewest(kind, st, Metas(st, r0, tags), x) && Candidate(st, x) == Some(FoundOf(b));
    var y :| IsNewest(kind, st, Metas(st, r, tags), y) && Candidate(st, y) == Some(f);
    CandidateByID(st, x, y);
  }

  // ---------------------------------------------------------------------------
  // The bases that are returned
  // ---------------------------------------------------------------------------

  /** Snapshots have IDs, and none of them is empty. */
  ghost predicate NamedSnapshots(st: Store) {
    forall s :: s in st.snapshots ==> s.id != ""
  }

  /** Each key of a returned base belongs to a reason the base was found for. */
  ghost predicate Justified(kind: Kind, st: Store, tags: set<string>, reasons: set<Reason>, b: BackupBase) {
    && Complete(b)
    && forall k :: KeyCount(b.reasons, k) > 0 ==>
         exists r :: r in reasons && ReasonKey(r) == k && Answers(kind, st, tags, r, FoundOf(b))
  }

  /** Every base is justified, and every reason with an answer is owned by exactly one base. */
  ghost predicate BasesFor(kind: Kind, st: Store, tags: set<string>, reasons: set<Reason>, bases: seq<BackupBase>) {
    && (forall i :: 0 <= i < |bases| ==> Justified(kind, st, tags, reasons, bases[i]))
    && (forall i :: 0 <= i < |bases| ==> OwnsItsReasons(reasons, bases, i))
    && (forall r :: r in reasons && HasAnswer(kind, st, tags, r) ==> exists i :: OwnedBy(bases, ReasonKey(r), i))
  }

  ghost predicate OwnsItsReasons(reasons: set<Reason>, bases: seq<BackupBase>, i: int)
    requires 0 <= i < |bases|
  {
    forall r :: r in bases[i].reasons ==> r in reasons && OwnedBy(bases, ReasonKey(r), i)
  }

  /** The reasons read differently when resource, service and category are joined. */
  ghost predicate ReasonsApart(reasons: set<Reason>) {
    forall q, r :: q in reasons && r in reasons ==> Apart(q, r)
  }

  /** Every reason with an answer is a reason of exactly one base, once, and each base answers its reasons. */
  ghost predicate AnswersEach(kind: Kind, st: Store, tags: set<string>, reasons: set<Reason>, bases: seq<BackupBase>) {
    && (forall r :: r in reasons && HasAnswer(kind, st, tags, r) ==> exists i :: HeldOnce(bases, r, i))
    && (forall i, r :: HasReason(bases, r, i) ==>
          && r in reasons && HeldOnce(bases, r, i)
          && Complete(bases[i]) && Answers(kind, st, tags, r, FoundOf(bases[i])))
  }

  predicate HasReason(bases: seq<BackupBase>, r: Reason, i: int) {
    0 <= i < |bases| && r in bases[i].reasons
  }

  lemma AnswersByReason(kind: Kind, st: Store, tags: set<string>, reasons: set<Reason>, bases: seq<BackupBase>)
    requires BasesFor(kind, st, tags, reasons, bases) && ReasonsApart(reasons)
    ensures AnswersEach(kind, st, tags, reasons, bases)
  {
    forall i, r | HasReason(bases, r, i)
      ensures r in reasons && HeldOnce(bases, r, i)
      ensures Complete(bases[i]) && Answers(kind, st, tags, r, FoundOf(bases[i]))
    {
      ReasonJustified(kind, st, tags, reasons, bases, r, i);
    }
    forall r | r in reasons && HasAnswer(kind, st, tags, r)
      ensures exists i :: HeldOnce(bases, r, i)
    {
      var i :| OwnedBy(bases, ReasonKey(r), i);
      OwnerHasReason(reasons, bases, r, i);
      OnlyHolder(bases, r, i);
    }
  }

  lemma ReasonJustified(kind: Kind, st: Store, tags: set<string>, reasons: set<Reason>, bases: seq<BackupBase>,
                        r: Reason, i: int)
    requires ReasonsApart(reasons) && HasReason(bases, r, i)
    requires OwnsItsReasons(reasons, bases, i) && Justified(kind, st, tags, reasons, bases[i])
    ensures r in reasons && HeldOnce(bases, r, i)
    ensures Complete(bases[i]) && Answers(kind, st, tags, r, FoundOf(bases[i]))
  {
    assert OwnedBy(bases, ReasonKey(r), i);
    OnlyHolder(bases, r, i);
    var q :| q in reasons && ReasonKey(q) == ReasonKey(r) && Answers(kind, st, tags, q, FoundOf(bases[i]));
    SameKeyApart(q, r);
  }

  lemma OwnerHasReason(reasons: set<Reason>, bases: seq<BackupBase>, r: Reason, i: int)
    requires ReasonsApart(reasons) && r in reasons
    requires OwnedBy(bases, ReasonKey(r), i) && OwnsItsReasons(reasons, bases, i)
    ensures r in bases[i].reasons
  {
    CountedByKey(bases[i].reasons, r);
    var q :| q in bases[i].reasons && ReasonKey(q) == ReasonKey(r);
    SameKeyApart(q, r);
  }

  lemma AnswerUsable(kind: Kind, st: Store, tags: set<string>, done: set<Reason>, b: BackupBase)
    requires NamedSnapshots(st) && AnswersAll(kind, st, tags, done, b)
    ensures b.Usable()
  {
    var r := b.reasons[0];
    assert r in b.reasons;
    var m :| IsNewest(kind, st, Metas(st, r, tags), m) && Candidate(st, m) == Some(FoundOf(b));
    LoadedIn(st.snapshots, m.id);
    StableIDOf(st, b.snapshot.value.backupID);
  }

  /** Nothing that was collected is dropped. */
  lemma {:induction false} AllUsable(bases: seq<BackupBase>)
    requires forall b :: b in bases ==> b.Usable()
    ensures UsableOnes(bases) == bases
  {
    if bases != [] {
      var init, last := bases[..|bases| - 1], bases[|bases| - 1];
      assert bases == init + [last];
      AllUsable(init);
    }
  }

  ghost predicate ValuesFor(m: map<string, BackupBase>, bases: seq<BackupBase>) {
    && (forall b :: b in bases ==> IDOf(b) in m && m[IDOf(b)] == b)
    && (forall id :: id in m ==> m[id] in bases)
  }

  method Values(m: map<string, BackupBase>) returns (bases: seq<BackupBase>)
    requires forall id :: id in m ==> IDOf(m[id]) == id
    ensures ValuesFor(m, bases)
  {
    ghost var ids;
    bases, ids := ValuesOf(m);
    forall id | id in m
      ensures m[id] in bases
    {
      var i :| 0 <= i < |ids| && ids[i] == id;
      assert bases[i] == m[id];
    }
  }

  lemma FixedUp(kind: Kind, st: Store, tags: set<string>, done: set<Reason>, m: map<string, BackupBase>,
                bases: seq<BackupBase>, res: seq<BackupBase>)
    requires Collected(kind, st, tags, done, m) && ValuesFor(m, bases) && Partitions(bases, res)
    ensures BasesFor(kind, st, tags, done, res)
  {
    forall i | 0 <= i < |res|
      ensures Justified(kind, st, tags, done, res[i]) && OwnsItsReasons(done, res, i)
    {
      ResultJustified(kind, st, tags, done, m, bases, res, i);
      ResultOwns(kind, st, tags, done, m, bases, res, i);
    }
    forall r | r in done && HasAnswer(kind, st, tags, r)
      ensures exists i :: OwnedBy(res, ReasonKey(r), i)
    {
      AnswerIsOwned(kind, st, tags, done, m, bases, res, r);
    }
  }

  lemma ResultOwns(kind: Kind, st: Store, tags: set<string>, done: set<Reason>, m: map<string, BackupBase>,
                   bases: seq<BackupBase>, res: seq<BackupBase>, i: int)
    requires Collected(kind, st, tags, done, m) && ValuesFor(m, bases) && Partitions(bases, res) && 0 <= i < |res|
    ensures OwnsItsReasons(done, res, i)
  {
    forall r | r in res[i].reasons
      ensures r in done && OwnedBy(res, ReasonKey(r), i)
    {
      HasOwnReasons(bases, res, r, i);
      ClaimedIsDone(kind, st, tags, done, m, bases, r);
    }
  }

  lemma ClaimedIsDone(kind: Kind, st: Store, tags: set<string>, done: set<Reason>, m: map<string, BackupBase>,
                      bases: seq<BackupBase>, r: Reason)
    requires Collected(kind, st, tags, done, m) && ValuesFor(m, bases) && ClaimedReason(bases, r)
    ensures r in done
  {
    var b :| b in bases && r in b.reasons;
    assert AnswersAll(kind, st, tags, done, m[IDOf(b)]);
  }

  lemma AnswerIsOwned(kind: Kind, st: Store, tags: set<string>, done: set<Reason>, m: map<string, BackupBase>,
                      bases: seq<BackupBase>, res: seq<BackupBase>, r: Reason)
    requires Collected(kind, st, tags, done, m) && ValuesFor(m, bases) && Partitions(bases, res)
    requires r in done && HasAnswer(kind, st, tags, r)
    ensures exists i :: OwnedBy(res, ReasonKey(r), i)
  {
    assert HeldBy(m, r);
    var id :| id in m && r in m[id].reasons;
    assert Claims(m[id], ReasonKey(r)) && m[id] in bases;
    assert Claimed(bases, ReasonKey(r));
    var i, w := WinnerOf(bases, res, ReasonKey(r));
  }

  lemma HasOwnReasons(bases: seq<BackupBase>, res: seq<BackupBase>, r: Reason, i: int)
    requires Partitions(bases, res) && 0 <= i < |res| && r in res[i].reasons
    ensures OwnedBy(res, ReasonKey(r), i)
  {
    var k := ReasonKey(r);
    CountedByKey(res[i].reasons, r);
    assert multiset(res[i].reasons)[r] > 0;
    assert Claimed(bases, k);
    var o, b :| OwnedBy(res, k, o) && WinsFor(bases, k, b) && IDOf(res[o]) == IDOf(b);
  }

  lemma KeyJustified(kind: Kind, st: Store, tags: set<string>, done: set<Reason>, m: map<string, BackupBase>,
                     bases: seq<BackupBase>, res: seq<BackupBase>, i: int, k: string)
    requires Collected(kind, st, tags, done, m) && ValuesFor(m, bases) && Partitions(bases, res)
    requires 0 <= i < |res| && KeyCount(res[i].reasons, k) > 0
    ensures Complete(res[i]) && exists r ::
      r in done && ReasonKey(r) == k && Answers(kind, st, tags, r, FoundOf(res[i]))
  {
    assert Claimed(bases, k);
    var o, w := WinnerOf(bases, res, k);
    assert o == i;
    assert w in bases && AnswersAll(kind, st, tags, done, m[IDOf(w)]);
    var r :| r in w.reasons && ReasonKey(r) == k;
    assert FoundOf(w) == FoundOf(res[i]);
  }

  lemma ResultJustified(kind: Kind, st: Store, tags: set<string>, done: set<Reason>, m: map<string, BackupBase>,
                        bases: seq<BackupBase>, res: seq<BackupBase>, i: int)
    requires Collected(kind, st, tags, done, m) && ValuesFor(m, bases) && Partitions(bases, res) && 0 <= i < |res|
    ensures Justified(kind, st, tags, done, res[i])
  {
    var k0 := SomeKey(res[i].reasons);
    KeyJustified(kind, st, tags, done, m, bases, res, i, k0);
    forall k | KeyCount(res[i].reasons, k) > 0
      ensures exists r :: r in done && ReasonKey(r) == k && Answers(kind, st, tags, r, FoundOf(res[i]))
    {
      KeyJustified(kind, st, tags, done, m, bases, res, i, k);
    }
  }

  /** `fixupAndVerify` on one kind of bases. */
  method FixupAndVerify(baseSet: seq<BackupBase>) returns (res: seq<BackupBase>)
    ensures Partitions(UsableOnes(baseSet), res)
  {
    var usable := FixupMinRequirements(baseSet);
    res := FixupReasons(usable);
  }

  /** The bases that were collected, fixed up. */
  method BasesOf(kind: Kind, ghost st: Store, ghost tags: set<string>, ghost done: set<Reason>,
                 m: map<string, BackupBase>)
    returns (res: seq<BackupBase>)
    requires NamedSnapshots(st) && Collected(kind, st, tags, done, m)
    ensures BasesFor(kind, st, tags, done, res)
  {
    var bases := Values(m);
    forall b | b in bases
      ensures b.Usable()
    {
      AnswerUsable(kind, st, tags, done, m[IDOf(b)]);
    }
    AllUsable(bases);
    res := FixupAndVerify(bases);
    FixedUp(kind, st, tags, done, m, bases, res);
  }

  function SetOf(reasons: seq<Reason>): set<Reason> {
    set r | r in reasons
  }

  lemma SetOfSnoc(reasons: seq<Reason>, i: nat, unlisted: set<Reason>)
    requires i < |reasons|
    ensures SetOf(reasons[..i + 1]) - unlisted ==
      if reasons[i] in unlisted then SetOf(reasons[..i]) - unlisted else SetOf(reasons[..i]) - unlisted + {reasons[i]}
  {
    assert reasons[..i + 1] == reasons[..i] + [reasons[i]];
  }

  /** Reasons whose snapshots cannot be listed are skipped. */
  method FindBases(st: Store, reasons: seq<Reason>, tags: set<string>, unlisted: set<Reason>) returns (bb: Bases)
    requires NamedSnapshots(st)
    ensures fresh(bb) && !bb.disableAssistBases
    ensures BasesFor(MergeKind, st, tags, SetOf(reasons) - unlisted, bb.mergeBases)
    ensures BasesFor(AssistKind, st, tags, SetOf(reasons) - unlisted, bb.assistBases)
    ensures ReasonsApart(SetOf(reasons) - unlisted) ==>
      && AnswersEach(MergeKind, st, tags, SetOf(reasons) - unlisted, bb.mergeBases)
      && AnswersEach(AssistKind, st, tags, SetOf(reasons) - unlisted, bb.assistBases)
  {
    var mergeBases, assistBases := map[], map[];
    ghost var done: set<Reason> := {};
    for i := 0 to |reasons|
      invariant done == SetOf(reasons[..i]) - unlisted
      invariant Collected(MergeKind, st, tags, done, mergeBases)
      invariant Collected(AssistKind, st, tags, done, assistBases)
    {
      var r := reasons[i];
      SetOfSnoc(reasons, i, unlisted);
      if r in unlisted {
        continue;
      }
      var mergeBase, assistBase := FindBasesInSet(st, Metas(st, r, tags));
      mergeBases := Collect(MergeKind, st, tags, done, mergeBases, r, mergeBase);
      assistBases := Collect(AssistKind, st, tags, done, assistBases, r, assistBase);
      done := done + {r};
    }
    assert reasons[..|reasons|] == reasons;
    var merges := BasesOf(MergeKind, st, tags, done, mergeBases);
    var assists := BasesOf(AssistKind, st, tags, done, assistBases);
    bb := new Bases(merges, assists);
    if ReasonsApart(done) {
      AnswersByReason(MergeKind, st, tags, done, merges);
      AnswersByReason(AssistKind, st, tags, done, assists);
    }
  }
}
