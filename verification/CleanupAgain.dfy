/**
 A store after cleanup, and a second cleanup at the same clock and listing order.

 On cleanly split stores the second cleanup deletes nothing, and on others it deletes
 something: backups that shared a piece with a superseded one, or leftover details.
 */
module CleanupAgain {
  import opened ManifestStore
  import opened Cleanup
  import opened OrphanCleanup

  function KeepSnapshots(snaps: seq<Snapshot>, gone: set<ID>): seq<Snapshot> {
    if snaps == [] then []
    else KeepSnapshots(snaps[..|snaps| - 1], gone) + if snaps[|snaps| - 1].id in gone then [] else [snaps[|snaps| - 1]]
  }

  function KeepDetails(details: seq<DetailsModel>, gone: set<ID>): seq<DetailsModel> {
    if details == [] then []
    else
      KeepDetails(details[..|details| - 1], gone)
      + if details[|details| - 1].id in gone then [] else [details[|details| - 1]]
  }

  function KeepBackups(bs: seq<ListedBackup>, gone: set<ID>): seq<ListedBackup> {
    if bs == [] then []
    else KeepBackups(bs[..|bs| - 1], gone) + if bs[|bs| - 1].backup.modelID in gone then [] else [bs[|bs| - 1]]
  }

  /** The store without the entries of the given IDs. */
  function Without(st: Store, gone: set<ID>): Store {
    Store(KeepSnapshots(st.snapshots, gone), KeepDetails(st.details, gone), KeepBackups(st.backups, gone))
  }

  lemma {:induction false} KeptSnapshots(snaps: seq<Snapshot>, gone: set<ID>, s: Snapshot)
    ensures s in KeepSnapshots(snaps, gone) <==> s in snaps && s.id !in gone
  {
    if snaps != [] {
      KeptSnapshots(snaps[..|snaps| - 1], gone, s);
    }
  }

  lemma {:induction false} KeptDetails(details: seq<DetailsModel>, gone: set<ID>, d: DetailsModel)
    ensures d in KeepDetails(details, gone) <==> d in details && d.id !in gone
  {
    if details != [] {
      KeptDetails(details[..|details| - 1], gone, d);
    }
  }

  /** Where the `i`th kept backup was listed. */
  ghost function Origin(bs: seq<ListedBackup>, gone: set<ID>, i: nat): (r: nat)
    requires i < |KeepBackups(bs, gone)|
    ensures r < |bs| && bs[r] == KeepBackups(bs, gone)[i] && bs[r].backup.modelID !in gone
  {
    var init := bs[..|bs| - 1];
    if i < |KeepBackups(init, gone)| then Origin(init, gone, i) else |bs| - 1
  }

  /** Listing order is kept. */
  lemma {:induction false} OriginGrows(bs: seq<ListedBackup>, gone: set<ID>, j: nat, i: nat)
    requires j < i < |KeepBackups(bs, gone)|
    ensures Origin(bs, gone, j) < Origin(bs, gone, i)
  {
    var init := bs[..|bs| - 1];
    if i < |KeepBackups(init, gone)| {
      OriginGrows(init, gone, j, i);
    }
  }

  lemma {:induction false} KeptBackups(bs: seq<ListedBackup>, gone: set<ID>, lb: ListedBackup)
    ensures lb in KeepBackups(bs, gone) <==> lb in bs && lb.backup.modelID !in gone
  {
    if bs != [] {
      KeptBackups(bs[..|bs| - 1], gone, lb);
    }
  }

  /** What is left in view after a cleanup. */
  lemma ViewAfter(st: Store, gone: set<ID>, cutoff: Time, id: ID)
    requires st.DistinctIDs()
    ensures var v, v' := SeenBy(st, cutoff), SeenBy(Without(st, gone), cutoff);
      && (id in v'.data <==> id in v.data && id !in gone)
      && (id in v'.data ==> v'.data[id] == v.data[id])
      && (id in v'.deets <==> id in v.deets && id !in gone)
  {
    var st' := Without(st, gone);
    ItemSnapshotsAre(st.snapshots, cutoff, id);
    ItemSnapshotsAre(st'.snapshots, cutoff, id);
    forall s: Snapshot | s.id == id
      ensures s in st'.snapshots <==> s in st.snapshots && s.id !in gone
    {
      KeptSnapshots(st.snapshots, gone, s);
    }
    forall d: DetailsModel | d.id == id
      ensures d in st'.details <==> d in st.details && d.id !in gone
    {
      KeptDetails(st.details, gone, d);
    }
    if id in SeenBy(st', cutoff).data {
      SameSnapshot(st, SeenBy(st', cutoff).data[id], SeenBy(st, cutoff).data[id]);
    }
  }

  lemma SameSnapshot(st: Store, a: Snapshot, b: Snapshot)
    requires st.DistinctIDs() && a in st.snapshots && b in st.snapshots && a.id == b.id
    ensures a == b
  {
    var i :| 0 <= i < |st.snapshots| && st.snapshots[i] == a;
    var j :| 0 <= j < |st.snapshots| && st.snapshots[j] == b;
  }

  // ---------------------------------------------------------------------------
  // A second cleanup
  // ---------------------------------------------------------------------------

  ghost predicate IsDeleted(st: Store, cutoff: Time, gone: set<ID>) {
    forall x :: x in gone <==> Deleted(st, cutoff, x)
  }

  /** A complete backup that is not superseded. */
  ghost predicate Stays(bs: seq<ListedBackup>, v: View, cutoff: Time, i: int) {
    0 <= i < |bs| && Complete(v, cutoff, bs[i]) && !SupersededAt(bs, v, cutoff, i)
  }

  ghost predicate SharesPieces(bs: seq<ListedBackup>, v: View, cutoff: Time, i: int, j: int) {
    && Stays(bs, v, cutoff, i) && SupersededAt(bs, v, cutoff, j)
    && !(Pieces(bs[i].backup) !! AssistPieces(bs[j].backup))
  }

  /** The details of superseded backup `j` are deleted with it or with another one, or belong to a backup that stays. */
  ghost predicate DetailsSettled(bs: seq<ListedBackup>, v: View, cutoff: Time, j: int)
    requires 0 <= j < |bs|
  {
    || (exists k :: SupersededAt(bs, v, cutoff, k) && bs[k].backup.streamStoreID == bs[j].backup.DetailsRef())
    || (exists i :: Stays(bs, v, cutoff, i) && bs[i].backup.DetailsRef() == bs[j].backup.DetailsRef())
  }

  /**
   Backups that stay share no piece with assist backups that go; and those do not leave
   legacy details behind.
   */
  ghost predicate CleanlySplit(st: Store, cutoff: Time) {
    var bs, v := st.backups, SeenBy(st, cutoff);
    && (forall i, j :: !SharesPieces(bs, v, cutoff, i, j))
    && (forall j :: SupersededAt(bs, v, cutoff, j) ==> DetailsSettled(bs, v, cutoff, j))
  }

  lemma SupersededGoes(st: Store, cutoff: Time, gone: set<ID>, i: int)
    requires IsDeleted(st, cutoff, gone) && SupersededAt(st.backups, SeenBy(st, cutoff), cutoff, i)
    ensures st.backups[i].backup.modelID in gone && st.backups[i].backup.snapshotID in gone
  {
    var b := st.backups[i].backup;
    assert DeletedPiece(st.backups, SeenBy(st, cutoff), cutoff, i, b.modelID);
    assert DeletedPiece(st.backups, SeenBy(st, cutoff), cutoff, i, b.snapshotID);
  }

  lemma PieceStays(st: Store, cutoff: Time, gone: set<ID>, i: int, x: ID)
    requires IsDeleted(st, cutoff, gone) && CleanlySplit(st, cutoff)
    requires Stays(st.backups, SeenBy(st, cutoff), cutoff, i) && x in Pieces(st.backups[i].backup)
    ensures x !in gone
  {
    var bs, v := st.backups, SeenBy(st, cutoff);
    assert Shields(bs, v, cutoff, i, x);
    forall j
      ensures !DeletedPiece(bs, v, cutoff, j, x)
    {
      assert !SharesPieces(bs, v, cutoff, i, j);
    }
  }

  /** Complete backups keep all their pieces, or lose their model and their item data. */
  lemma PiecesGoTogether(st: Store, cutoff: Time, gone: set<ID>, i: int)
    requires IsDeleted(st, cutoff, gone) && CleanlySplit(st, cutoff)
    requires 0 <= i < |st.backups| && Complete(SeenBy(st, cutoff), cutoff, st.backups[i])
    ensures var b, v := st.backups[i].backup, SeenBy(st, cutoff);
      if SupersededAt(st.backups, v, cutoff, i) then b.modelID in gone && b.snapshotID in gone else Pieces(b) !! gone
  {
    if SupersededAt(st.backups, SeenBy(st, cutoff), cutoff, i) {
      SupersededGoes(st, cutoff, gone, i);
    } else {
      forall x | x in Pieces(st.backups[i].backup)
        ensures x !in gone
      {
        PieceStays(st, cutoff, gone, i, x);
      }
    }
  }

  /** A piece that is left and was shielded belongs to a backup that stays. */
  lemma LeftWithItsOwner(st: Store, cutoff: Time, gone: set<ID>, x: ID) returns (i: int)
    requires IsDeleted(st, cutoff, gone) && CleanlySplit(st, cutoff)
    requires x !in gone && Shielded(st.backups, SeenBy(st, cutoff), cutoff, x)
    ensures Stays(st.backups, SeenBy(st, cutoff), cutoff, i) && x in Pieces(st.backups[i].backup)
  {
    var bs, v := st.backups, SeenBy(st, cutoff);
    i :| Shields(bs, v, cutoff, i, x);
    if SupersededAt(bs, v, cutoff, i) {
      PiecesGoTogether(st, cutoff, gone, i);
      assert x == bs[i].backup.DetailsRef();
      assert forall k :: SupersededAt(bs, v, cutoff, k) && bs[k].backup.streamStoreID == x ==>
        DeletedPiece(bs, v, cutoff, k, x);
      assert DetailsSettled(bs, v, cutoff, i);
      i :| Stays(bs, v, cutoff, i) && bs[i].backup.DetailsRef() == x;
    }
  }

  lemma CompleteAfter(st: Store, cutoff: Time, gone: set<ID>, lb: ListedBackup)
    requires st.DistinctIDs() && IsDeleted(st, cutoff, gone) && CleanlySplit(st, cutoff)
    requires lb in Without(st, gone).backups
    ensures var v, v' := SeenBy(st, cutoff), SeenBy(Without(st, gone), cutoff);
      && (Complete(v', cutoff, lb) <==> Complete(v, cutoff, lb))
      && (Complete(v, cutoff, lb) ==> Tagged(v', lb) == Tagged(v, lb))
  {
    ViewAfter(st, gone, cutoff, lb.backup.snapshotID);
    ViewAfter(st, gone, cutoff, lb.backup.DetailsRef());
    KeptBackups(st.backups, gone, lb);
    var i :| 0 <= i < |st.backups| && st.backups[i] == lb;
    if Complete(SeenBy(st, cutoff), cutoff, lb) {
      PiecesGoTogether(st, cutoff, gone, i);
    }
  }

  lemma AssistAfter(st: Store, cutoff: Time, gone: set<ID>, i: int, k: string)
    requires st.DistinctIDs() && IsDeleted(st, cutoff, gone) && CleanlySplit(st, cutoff)
    requires 0 <= i < |Without(st, gone).backups|
    ensures var st', r := Without(st, gone), Origin(st.backups, gone, i);
      && (AssistFor(st'.backups, SeenBy(st', cutoff), cutoff, i, k) <==>
           AssistFor(st.backups, SeenBy(st, cutoff), cutoff, r, k))
      && (MergeFor(st'.backups, SeenBy(st', cutoff), cutoff, i, k) <==>
           MergeFor(st.backups, SeenBy(st, cutoff), cutoff, r, k))
  {
    CompleteAfter(st, cutoff, gone, Without(st, gone).backups[i]);
  }

  lemma OutdatedBefore(st: Store, cutoff: Time, gone: set<ID>, i: int, k: string)
    requires st.DistinctIDs() && IsDeleted(st, cutoff, gone) && CleanlySplit(st, cutoff)
    requires 0 <= i < |Without(st, gone).backups|
    requires Outdated(Without(st, gone).backups, SeenBy(Without(st, gone), cutoff), cutoff, i, k)
    ensures Outdated(st.backups, SeenBy(st, cutoff), cutoff, Origin(st.backups, gone, i), k)
  {
    var st', r := Without(st, gone), Origin(st.backups, gone, i);
    var v, v' := SeenBy(st, cutoff), SeenBy(st', cutoff);
    if j :| AssistFor(st'.backups, v', cutoff, j, k) && Beats(st'.backups, j, i) {
      AssistAfter(st, cutoff, gone, j, k);
      if j < i {
        OriginGrows(st.backups, gone, j, i);
      }
      assert Beats(st.backups, Origin(st.backups, gone, j), r);
    } else {
      var j :| MergeFor(st'.backups, v', cutoff, j, k) &&
        st'.backups[i].backup.creationTime < st'.backups[j].backup.creationTime;
      AssistAfter(st, cutoff, gone, j, k);
      assert MergeFor(st.backups, v, cutoff, Origin(st.backups, gone, j), k);
    }
  }

  lemma SupersededBefore(st: Store, cutoff: Time, gone: set<ID>, i: int)
    requires st.DistinctIDs() && IsDeleted(st, cutoff, gone) && CleanlySplit(st, cutoff)
    requires SupersededAt(Without(st, gone).backups, SeenBy(Without(st, gone), cutoff), cutoff, i)
    ensures SupersededAt(st.backups, SeenBy(st, cutoff), cutoff, Origin(st.backups, gone, i))
  {
    var st', r := Without(st, gone), Origin(st.backups, gone, i);
    CompleteAfter(st, cutoff, gone, st'.backups[i]);
    forall k | k in KeysOf(SeenBy(st, cutoff), st.backups[r])
      ensures Outdated(st.backups, SeenBy(st, cutoff), cutoff, r, k)
    {
      OutdatedBefore(st, cutoff, gone, i, k);
    }
  }

  lemma NothingSuperseded(st: Store, cutoff: Time, gone: set<ID>, i: int)
    requires st.DistinctIDs() && IsDeleted(st, cutoff, gone) && CleanlySplit(st, cutoff)
    ensures !SupersededAt(Without(st, gone).backups, SeenBy(Without(st, gone), cutoff), cutoff, i)
  {
    if SupersededAt(Without(st, gone).backups, SeenBy(Without(st, gone), cutoff), cutoff, i) {
      SupersededBefore(st, cutoff, gone, i);
      PiecesGoTogether(st, cutoff, gone, Origin(st.backups, gone, i));
    }
  }

  lemma OldEntryBefore(st: Store, cutoff: Time, gone: set<ID>, x: ID)
    requires st.DistinctIDs() && OldEntry(Without(st, gone), cutoff, x)
    ensures OldEntry(st, cutoff, x) && x !in gone
  {
    var st' := Without(st, gone);
    if s :| s in st'.snapshots && Old(s.modTime, cutoff) && s.id == x {
      KeptSnapshots(st.snapshots, gone, s);
    } else if d :| d in st'.details && Old(d.modTime, cutoff) && d.id == x {
      KeptDetails(st.details, gone, d);
    } else {
      var i :| OldModel(st'.backups, cutoff, i, x);
      assert OldModel(st.backups, cutoff, Origin(st.backups, gone, i), x);
    }
  }

  lemma StillShielded(st: Store, cutoff: Time, gone: set<ID>, x: ID)
    requires st.DistinctIDs() && IsDeleted(st, cutoff, gone) && CleanlySplit(st, cutoff)
    requires x !in gone && Shielded(st.backups, SeenBy(st, cutoff), cutoff, x)
    ensures Shielded(Without(st, gone).backups, SeenBy(Without(st, gone), cutoff), cutoff, x)
  {
    var st' := Without(st, gone);
    var i := LeftWithItsOwner(st, cutoff, gone, x);
    var lb := st.backups[i];
    PiecesGoTogether(st, cutoff, gone, i);
    KeptBackups(st.backups, gone, lb);
    CompleteAfter(st, cutoff, gone, lb);
    var i' :| 0 <= i' < |st'.backups| && st'.backups[i'] == lb;
    assert Shields(st'.backups, SeenBy(st', cutoff), cutoff, i', x);
  }

  /** On a cleanly split store, a second cleanup at the same clock and listing order deletes nothing. */
  lemma SecondCleanupDeletesNothing(st: Store, cutoff: Time, gone: set<ID>, x: ID)
    requires st.DistinctIDs() && IsDeleted(st, cutoff, gone) && CleanlySplit(st, cutoff)
    ensures !Deleted(Without(st, gone), cutoff, x)
  {
    var st' := Without(st, gone);
    forall i
      ensures !DeletedPiece(st'.backups, SeenBy(st', cutoff), cutoff, i, x)
    {
      NothingSuperseded(st, cutoff, gone, i);
    }
    if OldEntry(st', cutoff, x) {
      OldEntryBefore(st, cutoff, gone, x);
      StillShielded(st, cutoff, gone, x);
    }
  }

  // ---------------------------------------------------------------------------
  // Otherwise, it deletes something
  // ---------------------------------------------------------------------------

  ghost predicate NamedModels(st: Store) {
    forall lb :: lb in st.backups ==> lb.backup.modelID != ""
  }

  /** Item data and details in view are different entries, and models are neither. */
  lemma KindsDiffer(st: Store, cutoff: Time, id: ID)
    requires st.DistinctIDs()
    ensures var v := SeenBy(st, cutoff);
      && (id in v.data ==> id !in v.deets)
      && (forall i :: 0 <= i < |st.backups| && st.backups[i].backup.modelID == id ==> id !in v.data && id !in v.deets)
  {
    StoreModelsApart(st, cutoff);
    forall i | 0 <= i < |st.backups| && st.backups[i].backup.modelID == id
      ensures id !in SeenBy(st, cutoff).data && id !in SeenBy(st, cutoff).deets
    {
      assert Unseen(SeenBy(st, cutoff), st.backups[i]);
    }
    ItemSnapshotsAre(st.snapshots, cutoff, id);
    if id in SeenBy(st, cutoff).data {
      forall x | x in st.snapshots && x.id == id
        ensures x == SeenBy(st, cutoff).data[id]
      {
        SameSnapshot(st, x, SeenBy(st, cutoff).data[id]);
      }
    }
  }

  /** Only its own backup has a model among its pieces. */
  lemma ModelIsOwn(st: Store, cutoff: Time, i: int, j: int)
    requires st.DistinctIDs() && NamedModels(st)
    requires 0 <= i < |st.backups| && 0 <= j < |st.backups| && Complete(SeenBy(st, cutoff), cutoff, st.backups[j])
    ensures st.backups[i].backup.modelID in Pieces(st.backups[j].backup) + AssistPieces(st.backups[j].backup) ==> i == j
  {
    KindsDiffer(st, cutoff, st.backups[i].backup.modelID);
    assert st.backups[i] in st.backups;
  }

  /** The model of a backup that stays is left. */
  lemma ModelStays(st: Store, cutoff: Time, gone: set<ID>, i: int)
    requires st.DistinctIDs() && NamedModels(st) && IsDeleted(st, cutoff, gone)
    requires Stays(st.backups, SeenBy(st, cutoff), cutoff, i)
    ensures st.backups[i].backup.modelID !in gone && st.backups[i] in Without(st, gone).backups
  {
    var x := st.backups[i].backup.modelID;
    assert Shields(st.backups, SeenBy(st, cutoff), cutoff, i, x);
    forall j
      ensures !DeletedPiece(st.backups, SeenBy(st, cutoff), cutoff, j, x)
    {
      if 0 <= j < |st.backups| && Complete(SeenBy(st, cutoff), cutoff, st.backups[j]) {
        ModelIsOwn(st, cutoff, i, j);
      }
    }
    KeptBackups(st.backups, gone, st.backups[i]);
  }

  /** What is complete after a cleanup was complete before it. */
  lemma CompleteBefore(st: Store, cutoff: Time, gone: set<ID>, lb: ListedBackup)
    requires st.DistinctIDs() && Complete(SeenBy(Without(st, gone), cutoff), cutoff, lb)
    ensures Complete(SeenBy(st, cutoff), cutoff, lb) && lb.backup.snapshotID !in gone && lb.backup.DetailsRef() !in gone
  {
    ViewAfter(st, gone, cutoff, lb.backup.snapshotID);
    ViewAfter(st, gone, cutoff, lb.backup.DetailsRef());
  }

  /** A backup that stays but shares a piece with one that goes is no longer complete. */
  lemma SharingBreaks(st: Store, cutoff: Time, gone: set<ID>, i: int, j: int)
    requires st.DistinctIDs() && NamedModels(st) && IsDeleted(st, cutoff, gone)
    requires SharesPieces(st.backups, SeenBy(st, cutoff), cutoff, i, j)
    ensures !Complete(SeenBy(Without(st, gone), cutoff), cutoff, st.backups[i])
  {
    var x :| x in Pieces(st.backups[i].backup) && x in AssistPieces(st.backups[j].backup);
    assert DeletedPiece(st.backups, SeenBy(st, cutoff), cutoff, j, x);
    ModelStays(st, cutoff, gone, i);
    ViewAfter(st, gone, cutoff, x);
  }

  /** The second cleanup deletes its model. */
  lemma SharingIsPunished(st: Store, cutoff: Time, gone: set<ID>, i: int, j: int)
    requires st.DistinctIDs() && NamedModels(st) && IsDeleted(st, cutoff, gone)
    requires SharesPieces(st.backups, SeenBy(st, cutoff), cutoff, i, j)
    ensures Deleted(Without(st, gone), cutoff, st.backups[i].backup.modelID)
  {
    var st', lb := Without(st, gone), st.backups[i];
    SharingBreaks(st, cutoff, gone, i, j);
    ModelStays(st, cutoff, gone, i);
    var i' :| 0 <= i' < |st'.backups| && st'.backups[i'] == lb;
    assert OldModel(st'.backups, cutoff, i', lb.backup.modelID);
    forall k
      ensures !Shields(st'.backups, SeenBy(st', cutoff), cutoff, k, lb.backup.modelID)
    {
      NotShieldedAfter(st, cutoff, gone, i, k);
    }
  }

  lemma NotShieldedAfter(st: Store, cutoff: Time, gone: set<ID>, i: int, k: int)
    requires st.DistinctIDs() && NamedModels(st) && 0 <= i < |st.backups|
    requires !Complete(SeenBy(Without(st, gone), cutoff), cutoff, st.backups[i])
    ensures !Shields(Without(st, gone).backups, SeenBy(Without(st, gone), cutoff), cutoff, k,
        st.backups[i].backup.modelID)
  {
    var st' := Without(st, gone);
    if 0 <= k < |st'.backups| && Complete(SeenBy(st', cutoff), cutoff, st'.backups[k]) {
      CompleteBefore(st, cutoff, gone, st'.backups[k]);
      ModelIsOwn(st, cutoff, i, Origin(st.backups, gone, k));
    }
  }

  /** Legacy details left behind by a superseded backup are deleted by the second cleanup. */
  lemma LeftoversArePunished(st: Store, cutoff: Time, gone: set<ID>, j: int)
    requires st.DistinctIDs() && NamedModels(st) && IsDeleted(st, cutoff, gone)
    requires SupersededAt(st.backups, SeenBy(st, cutoff), cutoff, j)
    requires !DetailsSettled(st.backups, SeenBy(st, cutoff), cutoff, j)
    ensures Deleted(Without(st, gone), cutoff, st.backups[j].backup.DetailsRef())
  {
    var bs, v, st' := st.backups, SeenBy(st, cutoff), Without(st, gone);
    var x := bs[j].backup.DetailsRef();
    LeftoverIsLeft(st, cutoff, j);
    ViewAfter(st, gone, cutoff, x);
    DetailsAreOld(st', cutoff, x);
    forall k
      ensures !Shields(st'.backups, SeenBy(st', cutoff), cutoff, k, x)
    {
      if 0 <= k < |st'.backups| && Complete(SeenBy(st', cutoff), cutoff, st'.backups[k]) {
        CompleteBefore(st, cutoff, gone, st'.backups[k]);
        LeftoverIsNobodys(st, cutoff, gone, j, Origin(st.backups, gone, k));
      }
    }
  }

  lemma LeftoverIsLeft(st: Store, cutoff: Time, j: int)
    requires st.DistinctIDs()
    requires SupersededAt(st.backups, SeenBy(st, cutoff), cutoff, j)
    requires !DetailsSettled(st.backups, SeenBy(st, cutoff), cutoff, j)
    ensures !Deleted(st, cutoff, st.backups[j].backup.DetailsRef())
  {
    var bs, v := st.backups, SeenBy(st, cutoff);
    var x := bs[j].backup.DetailsRef();
    assert Shields(bs, v, cutoff, j, x);
    forall k
      ensures !DeletedPiece(bs, v, cutoff, k, x)
    {
      if SupersededAt(bs, v, cutoff, k) {
        KindsDiffer(st, cutoff, bs[k].backup.modelID);
        KindsDiffer(st, cutoff, bs[k].backup.snapshotID);
      }
    }
  }

  /** No backup that is left has the leftover details among its pieces. */
  lemma LeftoverIsNobodys(st: Store, cutoff: Time, gone: set<ID>, j: int, r: int)
    requires st.DistinctIDs() && IsDeleted(st, cutoff, gone)
    requires SupersededAt(st.backups, SeenBy(st, cutoff), cutoff, j)
    requires !DetailsSettled(st.backups, SeenBy(st, cutoff), cutoff, j)
    requires 0 <= r < |st.backups| && Complete(SeenBy(st, cutoff), cutoff, st.backups[r]) &&
      st.backups[r].backup.modelID !in gone
    ensures st.backups[j].backup.DetailsRef() !in Pieces(st.backups[r].backup)
  {
    var bs, v := st.backups, SeenBy(st, cutoff);
    KindsDiffer(st, cutoff, bs[r].backup.modelID);
    KindsDiffer(st, cutoff, bs[r].backup.snapshotID);
    assert SupersededAt(bs, v, cutoff, r) ==> DeletedPiece(bs, v, cutoff, r, bs[r].backup.modelID);
    assert Stays(bs, v, cutoff, r);
  }

  /** A second cleanup at the same clock and listing order deletes nothing, exactly if the store is cleanly split. */
  lemma SecondCleanupIff(st: Store, cutoff: Time, gone: set<ID>)
    requires st.DistinctIDs() && NamedModels(st) && IsDeleted(st, cutoff, gone)
    ensures CleanlySplit(st, cutoff) <==> forall x :: !Deleted(Without(st, gone), cutoff, x)
  {
    var bs, v := st.backups, SeenBy(st, cutoff);
    if CleanlySplit(st, cutoff) {
      forall x
        ensures !Deleted(Without(st, gone), cutoff, x)
      {
        SecondCleanupDeletesNothing(st, cutoff, gone, x);
      }
    } else if i, j :| SharesPieces(bs, v, cutoff, i, j) {
      SharingIsPunished(st, cutoff, gone, i, j);
    } else {
      var j :| SupersededAt(bs, v, cutoff, j) && !DetailsSettled(bs, v, cutoff, j);
      LeftoversArePunished(st, cutoff, gone, j);
    }
  }
}
