/**
 Cleanup beside running backups.  A backup writes its item data snapshot, its details
 and its model one at a time; cleanup lists snapshots, reads the clock, lists details,
 lists models, and deletes, also one step at a time.

 Any interleaving of these steps is a run.
 */
module CleanupInterleaving {
  import opened ManifestStore
  import opened Cleanup
  import opened OrphanCleanup
  import opened CleanupAgain
  import opened CleanupVsFinder

  /** A finished cleanup. */
  datatype Finished = Finished(start: Time, cutoff: Time, end: Time, gone: set<ID>)

  datatype Phase =
    | Idle
    | SnapshotsListed(start: Time, snapshots: seq<Snapshot>)
    | ClockRead(start: Time, snapshots: seq<Snapshot>, cutoff: Time)
    | DetailsListed(start: Time, snapshots: seq<Snapshot>, cutoff: Time, details: seq<DetailsModel>)
    | AllListed(start: Time, cutoff: Time, listing: Store)

  /** Everything ever written, the IDs deleted so far, and what cleanup is doing. */
  datatype State = State(now: Time, written: Store, lost: set<ID>, phase: Phase, log: seq<Finished>)

  function Present(s: State): Store {
    Without(s.written, s.lost)
  }

  ghost predicate Init(s: State) {
    s.written == Store([], [], []) && s.lost == {} && s.phase == Idle && s.log == []
  }

  ghost predicate Fresh(st: Store, id: ID) {
    && id != ""
    && (forall x :: x in st.snapshots ==> x.id != id)
    && (forall x :: x in st.details ==> x.id != id)
    && (forall x :: x in st.backups ==> x.backup.modelID != id)
  }

  datatype Event =
    | Tick
    | WriteSnapshot(snapshot: Snapshot)
    | WriteDetails(details: DetailsModel)
    | WriteBackup(backup: Backup)
    | ListSnapshots
    | ReadClock
    | ListDetails
    | ListBackups
    | Delete(gone: set<ID>)

  ghost predicate Step(s: State, s': State, e: Event, gcBuffer: nat) {
    match e
    case Tick => s.now <= s'.now && s' == s.(now := s'.now)
    case WriteSnapshot(x) =>
      && x.modTime == s.now && Fresh(s.written, x.id)
      && s' == s.(written := s.written.(snapshots := s.written.snapshots + [x]))
    case WriteDetails(x) =>
      && x.modTime == s.now && Fresh(s.written, x.id)
      && s' == s.(written := s.written.(details := s.written.details + [x]))
    case WriteBackup(b) =>
      && b.modTime == s.now && Fresh(s.written, b.modelID)
      && (forall x :: x in s.written.backups ==> SharesNothing(x.backup, b))
      && s' == s.(written := s.written.(backups := s.written.backups + [ListedBackup(b, Loads)]))
    case ListSnapshots =>
      s.phase.Idle? && s' == s.(phase := SnapshotsListed(s.now, Present(s).snapshots))
    case ReadClock =>
      && s.phase.SnapshotsListed?
      && s' == s.(phase := ClockRead(s.phase.start, s.phase.snapshots, Cutoff(s.now, gcBuffer)))
    case ListDetails =>
      && s.phase.ClockRead?
      && s' == s.(phase := DetailsListed(s.phase.start, s.phase.snapshots, s.phase.cutoff, Present(s).details))
    case ListBackups =>
      && s.phase.DetailsListed?
      && s' == s.(phase := AllListed(s.phase.start, s.phase.cutoff,
                                     Store(s.phase.snapshots, s.phase.details, Present(s).backups)))
    case Delete(gone) =>
      && s.phase.AllListed? && IsDeleted(s.phase.listing, s.phase.cutoff, gone)
      && s' == s.(phase := Idle, lost := s.lost + gone,
                  log := s.log + [Finished(s.phase.start, s.phase.cutoff, s.now, gone)])
  }

  ghost predicate Next(s: State, s': State, gcBuffer: nat) {
    exists e :: Step(s, s', e, gcBuffer)
  }

  ghost predicate Run(trace: seq<State>, gcBuffer: nat) {
    && trace != []
    && if |trace| == 1 then Init(trace[0])
       else Run(trace[..|trace| - 1], gcBuffer) && Next(trace[|trace| - 2], trace[|trace| - 1], gcBuffer)
  }

  // ---------------------------------------------------------------------------
  // Invariant of all runs
  // ---------------------------------------------------------------------------

  ghost predicate Apart(st: Store) {
    NothingEmpty(st) && st.DistinctIDs() && NoneShared(st.backups)
  }

  ghost predicate NothingEmpty(st: Store) {
    && (forall x :: x in st.snapshots ==> x.id != "")
    && (forall x :: x in st.details ==> x.id != "")
    && (forall x :: x in st.backups ==> x.backup.modelID != "" && x.fetch.Loads?)
  }

  /** Nothing was written in the future. */
  ghost predicate NotAfter(st: Store, now: Time) {
    && (forall x :: x in st.snapshots ==> x.modTime <= now)
    && (forall x :: x in st.details ==> x.modTime <= now)
    && (forall x :: x in st.backups ==> x.backup.modTime <= now)
  }

  /** A listing holds only what was written, and all of that from before `start` that was not deleted. */
  ghost predicate ListsSnapshots(s: State, start: Time, snaps: seq<Snapshot>) {
    && (forall x :: x in snaps ==> x in s.written.snapshots)
    && (forall x :: x in s.written.snapshots && x.id !in s.lost && x.modTime < start ==> x in snaps)
  }

  ghost predicate ListsDetails(s: State, start: Time, details: seq<DetailsModel>) {
    && (forall x :: x in details ==> x in s.written.details)
    && (forall x :: x in s.written.details && x.id !in s.lost && x.modTime < start ==> x in details)
  }

  ghost predicate ListsBackups(s: State, start: Time, bs: seq<ListedBackup>) {
    && (forall x :: x in bs ==> x in s.written.backups)
    && (forall x :: x in s.written.backups && x.backup.modelID !in s.lost && x.backup.modTime < start ==> x in bs)
  }

  /** The clock was read after the first listing. */
  ghost predicate CutoffFits(s: State, start: Time, cutoff: Time, gcBuffer: nat) {
    start <= s.now && cutoff <= Cutoff(s.now, gcBuffer)
  }

  ghost predicate PhaseOk(s: State, gcBuffer: nat) {
    match s.phase
    case Idle => true
    case SnapshotsListed(start, snaps) => start <= s.now && ListsSnapshots(s, start, snaps)
    case ClockRead(start, snaps, cutoff) => CutoffFits(s, start, cutoff, gcBuffer) && ListsSnapshots(s, start, snaps)
    case DetailsListed(start, snaps, cutoff, details) =>
      CutoffFits(s, start, cutoff, gcBuffer) && ListsSnapshots(s, start, snaps) && ListsDetails(s, start, details)
    case AllListed(start, cutoff, l) =>
      && CutoffFits(s, start, cutoff, gcBuffer)
      && ListsSnapshots(s, start, l.snapshots) && ListsDetails(s, start, l.details) && ListsBackups(s, start, l.backups)
  }

  /** Only entries from before the cutoff were deleted, and the cutoff was early enough. */
  ghost predicate FinishedOk(st: Store, f: Finished, gcBuffer: nat) {
    && (forall id :: id in f.gone ==> id == "" || !Fresh(st, id))
    && f.start <= f.end && f.cutoff <= Cutoff(f.end, gcBuffer)
    && (forall x :: x in st.snapshots && x.id in f.gone ==> x.modTime < f.cutoff)
    && (forall x :: x in st.details && x.id in f.gone ==> x.modTime < f.cutoff)
    && (forall x :: x in st.backups && x.backup.modelID in f.gone ==> x.backup.modTime < f.cutoff)
  }

  ghost predicate LogOk(s: State, gcBuffer: nat) {
    && (forall f :: f in s.log ==> FinishedOk(s.written, f, gcBuffer) && f.end <= s.now)
    && (forall id :: id in s.lost ==> exists f :: f in s.log && id in f.gone)
  }

  ghost predicate Inv(s: State, gcBuffer: nat) {
    Apart(s.written) && NotAfter(s.written, s.now) && PhaseOk(s, gcBuffer) && LogOk(s, gcBuffer)
  }

  /** Whatever is written later, has an ID that no cleanup has deleted. */
  lemma WriteKeepsLog(s: State, s': State, e: Event, gcBuffer: nat)
    requires LogOk(s, gcBuffer) && Step(s, s', e, gcBuffer)
    requires e.WriteSnapshot? || e.WriteDetails? || e.WriteBackup?
    ensures LogOk(s', gcBuffer)
  {
    forall f | f in s'.log
      ensures FinishedOk(s'.written, f, gcBuffer) && f.end <= s'.now
    {
      assert FinishedOk(s.written, f, gcBuffer);
    }
  }

  lemma WriteKeepsApart(s: State, s': State, e: Event, gcBuffer: nat)
    requires Apart(s.written) && NotAfter(s.written, s.now) && Step(s, s', e, gcBuffer)
    requires e.WriteSnapshot? || e.WriteDetails? || e.WriteBackup?
    ensures Apart(s'.written) && NotAfter(s'.written, s'.now)
  {
    match e
    case WriteSnapshot(x) => SnapshotApart(s.written, x);
    case WriteDetails(x) => DetailsApart(s.written, x);
    case WriteBackup(b) => BackupApart(s.written, ListedBackup(b, Loads));
  }

  lemma SnapshotApart(st: Store, x: Snapshot)
    requires Apart(st) && Fresh(st, x.id)
    ensures Apart(st.(snapshots := st.snapshots + [x]))
  {
  }

  lemma DetailsApart(st: Store, x: DetailsModel)
    requires Apart(st) && Fresh(st, x.id)
    ensures Apart(st.(details := st.details + [x]))
  {
  }

  lemma BackupApart(st: Store, lb: ListedBackup)
    requires Apart(st) && Fresh(st, lb.backup.modelID) && lb.fetch.Loads?
    requires forall x :: x in st.backups ==> SharesNothing(x.backup, lb.backup)
    ensures Apart(st.(backups := st.backups + [lb]))
  {
  }

  lemma WriteKeeps(s: State, s': State, e: Event, gcBuffer: nat)
    requires Inv(s, gcBuffer) && Step(s, s', e, gcBuffer)
    requires e.WriteSnapshot? || e.WriteDetails? || e.WriteBackup?
    ensures Inv(s', gcBuffer)
  {
    WriteKeepsApart(s, s', e, gcBuffer);
    WriteKeepsLog(s, s', e, gcBuffer);
  }

  lemma ListingKeeps(s: State, s': State, e: Event, gcBuffer: nat)
    requires Inv(s, gcBuffer) && Step(s, s', e, gcBuffer)
    requires e.Tick? || e.ListSnapshots? || e.ReadClock? || e.ListDetails? || e.ListBackups?
    ensures Inv(s', gcBuffer)
  {
    forall x
      ensures x in Present(s).snapshots <==> x in s.written.snapshots && x.id !in s.lost
    {
      KeptSnapshots(s.written.snapshots, s.lost, x);
    }
    forall x
      ensures x in Present(s).details <==> x in s.written.details && x.id !in s.lost
    {
      KeptDetails(s.written.details, s.lost, x);
    }
    forall x
      ensures x in Present(s).backups <==> x in s.written.backups && x.backup.modelID !in s.lost
    {
      KeptBackups(s.written.backups, s.lost, x);
    }
  }

  /** All entries with this ID were written before the cutoff, and there is one. */
  ghost predicate WrittenBefore(st: Store, cutoff: Time, id: ID) {
    && !Fresh(st, id)
    && (forall x :: x in st.snapshots && x.id == id ==> x.modTime < cutoff)
    && (forall x :: x in st.details && x.id == id ==> x.modTime < cutoff)
    && (forall x :: x in st.backups && x.backup.modelID == id ==> x.backup.modTime < cutoff)
  }

  lemma GoneIsOld(s: State, gone: set<ID>, gcBuffer: nat, id: ID)
    requires Inv(s, gcBuffer) && s.phase.AllListed? && IsDeleted(s.phase.listing, s.phase.cutoff, gone)
    requires id in gone && id != ""
    ensures WrittenBefore(s.written, s.phase.cutoff, id)
  {
    DeletedIsOld(s.phase.listing, s.phase.cutoff, id);
  }

  lemma DeleteKeeps(s: State, s': State, gone: set<ID>, gcBuffer: nat)
    requires Inv(s, gcBuffer) && Step(s, s', Delete(gone), gcBuffer)
    ensures Inv(s', gcBuffer)
  {
    forall id | id in gone && id != ""
      ensures WrittenBefore(s.written, s.phase.cutoff, id)
    {
      GoneIsOld(s, gone, gcBuffer, id);
    }
    var f := Finished(s.phase.start, s.phase.cutoff, s.now, gone);
    assert FinishedOk(s.written, f, gcBuffer);
    assert f in s'.log;
    forall id | id in s'.lost
      ensures exists g :: g in s'.log && id in g.gone
    {
      if id in s.lost {
        var g :| g in s.log && id in g.gone;
        assert g in s'.log;
      }
    }
  }

  lemma StepKeeps(s: State, s': State, e: Event, gcBuffer: nat)
    requires Inv(s, gcBuffer) && Step(s, s', e, gcBuffer)
    ensures Inv(s', gcBuffer)
  {
    match e
    case Delete(gone) => DeleteKeeps(s, s', gone, gcBuffer);
    case WriteSnapshot(_) | WriteDetails(_) | WriteBackup(_) => WriteKeeps(s, s', e, gcBuffer);
    case _ => ListingKeeps(s, s', e, gcBuffer);
  }

  lemma NextKeeps(s: State, s': State, gcBuffer: nat)
    requires Inv(s, gcBuffer) && Next(s, s', gcBuffer)
    ensures Inv(s', gcBuffer)
  {
    var e :| Step(s, s', e, gcBuffer);
    StepKeeps(s, s', e, gcBuffer);
  }

  /** The invariant holds at the end of every run. */
  lemma {:induction false} RunKeeps(trace: seq<State>, gcBuffer: nat)
    requires Run(trace, gcBuffer)
    ensures Inv(trace[|trace| - 1], gcBuffer)
    decreases |trace|
  {
    if |trace| > 1 {
      RunKeeps(trace[..|trace| - 1], gcBuffer);
      NextKeeps(trace[|trace| - 2], trace[|trace| - 1], gcBuffer);
    }
  }

  // ---------------------------------------------------------------------------
  // Overlapping backups
  // ---------------------------------------------------------------------------

  /** `id` was written at time `t`. */
  ghost predicate WrittenAt(st: Store, id: ID, t: Time) {
    && id != ""
    && ((exists x :: x in st.snapshots && x.id == id && x.modTime == t)
        || (exists x :: x in st.details && x.id == id && x.modTime == t)
        || (exists x :: x in st.backups && x.backup.modelID == id && x.backup.modTime == t))
  }

  /** All pieces were written, any two of them at most `span` apart. */
  ghost predicate WrittenWithin(st: Store, pieces: set<ID>, span: nat) {
    && (forall id :: id in pieces ==> exists t: Time :: WrittenAt(st, id, t))
    && (forall a, b, t: Time, u: Time :: a in pieces && b in pieces && WrittenAt(st, a, t) && WrittenAt(st, b, u) ==>
         u <= t + span)
  }

  /**
   A backup that was still writing when a cleanup started, or started later, loses nothing
   to it, if its write span plus the duration of the cleanup is at most the buffer.
   */
  lemma OverlappingBackupKeepsItsPieces(trace: seq<State>, gcBuffer: nat, f: Finished, pieces: set<ID>, span: nat,
                                        last: ID, t: Time)
    requires Run(trace, gcBuffer) && f in trace[|trace| - 1].log
    requires WrittenWithin(trace[|trace| - 1].written, pieces, span)
    requires last in pieces && WrittenAt(trace[|trace| - 1].written, last, t) && f.start <= t
    requires span + (f.end - f.start) <= gcBuffer
    ensures pieces !! f.gone
  {
    var st := trace[|trace| - 1].written;
    RunFinished(trace, gcBuffer, f);
    forall id | id in pieces
      ensures id !in f.gone
    {
      var u: Time :| WrittenAt(st, id, u);
      assert t <= u + span;
    }
  }

  lemma RunFinished(trace: seq<State>, gcBuffer: nat, f: Finished)
    requires Run(trace, gcBuffer) && f in trace[|trace| - 1].log
    ensures FinishedOk(trace[|trace| - 1].written, f, gcBuffer)
  {
    RunKeeps(trace, gcBuffer);
  }

  // ---------------------------------------------------------------------------
  // Finished backups
  // ---------------------------------------------------------------------------

  /** A backup other than an assist backup, all of whose pieces were written. */
  ghost predicate Finishes(st: Store, lb: ListedBackup, sn: Snapshot, dt: Time) {
    && lb in st.backups && !lb.backup.TaggedAssist()
    && sn in st.snapshots && ItemData(sn) && sn.id == lb.backup.snapshotID
    && IsDetails(st, lb.backup.DetailsRef(), dt)
  }

  predicate AllBefore(cutoff: Time, lb: ListedBackup, sn: Snapshot, dt: Time) {
    lb.backup.modTime < cutoff && sn.modTime < cutoff && dt < cutoff
  }

  predicate NoneBefore(cutoff: Time, lb: ListedBackup, sn: Snapshot, dt: Time) {
    cutoff <= lb.backup.modTime && cutoff <= sn.modTime && cutoff <= dt
  }

  /**
   Every cleanup so far had its cutoff outside the backup's write span, and started after
   that span if the cutoff did.  A cleanup whose cutoff is not after its start has only the
   cutoff to respect.
   */
  ghost predicate Undisturbed(log: seq<Finished>, lb: ListedBackup, sn: Snapshot, dt: Time) {
    forall f :: f in log ==>
      || (AllBefore(f.cutoff, lb, sn, dt) && AllBefore(f.start, lb, sn, dt))
      || NoneBefore(f.cutoff, lb, sn, dt)
  }

  ghost predicate Unharmed(log: seq<Finished>, b: Backup) {
    forall f :: f in log ==> Pieces(b) !! f.gone
  }

  ghost predicate Claim(s: State, gcBuffer: nat) {
    forall lb, sn, dt ::
      Finishes(s.written, lb, sn, dt) && Undisturbed(s.log, lb, sn, dt) ==> Unharmed(s.log, lb.backup)
  }

  /** Pieces that are all too young for a cleanup survive it. */
  lemma YoungUnharmed(st: Store, f: Finished, gcBuffer: nat, lb: ListedBackup, sn: Snapshot, dt: Time)
    requires NothingEmpty(st) && FinishedOk(st, f, gcBuffer)
    requires Finishes(st, lb, sn, dt) && NoneBefore(f.cutoff, lb, sn, dt)
    ensures Pieces(lb.backup) !! f.gone
  {
  }

  /** A backup that is finished only now is too young for all cleanups that are over. */
  lemma NewlyFinished(s: State, s': State, gcBuffer: nat, lb: ListedBackup, sn: Snapshot, dt: Time)
    requires Inv(s, gcBuffer) && Inv(s', gcBuffer) && Claim(s, gcBuffer) && s'.log == s.log
    requires Finishes(s'.written, lb, sn, dt) && Undisturbed(s.log, lb, sn, dt)
    requires Finishes(s.written, lb, sn, dt) || lb.backup.modTime == s.now || sn.modTime == s.now || dt == s.now
    ensures Unharmed(s'.log, lb.backup)
  {
    if !Finishes(s.written, lb, sn, dt) {
      forall f | f in s.log
        ensures Pieces(lb.backup) !! f.gone
      {
        assert FinishedOk(s'.written, f, gcBuffer) && f.cutoff <= s.now;
        YoungUnharmed(s'.written, f, gcBuffer, lb, sn, dt);
      }
    }
  }

  /** What a listing shows of item data and details are different things. */
  lemma ListingApart(s: State, gcBuffer: nat, id: ID)
    requires Inv(s, gcBuffer) && s.phase.AllListed?
    ensures var v := SeenBy(s.phase.listing, s.phase.cutoff);
      && !(id in v.data && id in v.deets)
      && forall lb :: lb in s.written.backups && lb.backup.modelID == id ==> id !in v.data && id !in v.deets
  {
    ItemSnapshotsAre(s.phase.listing.snapshots, s.phase.cutoff, id);
  }

  /** The listing shows all of an old backup that has lost nothing yet. */
  lemma ListingComplete(s: State, gcBuffer: nat, lb: ListedBackup, sn: Snapshot, dt: Time)
    requires Inv(s, gcBuffer) && s.phase.AllListed? && AllBefore(s.phase.start, lb, sn, dt)
    requires Finishes(s.written, lb, sn, dt) && AllBefore(s.phase.cutoff, lb, sn, dt)
    requires Pieces(lb.backup) !! s.lost
    ensures lb in s.phase.listing.backups
    ensures Complete(SeenBy(s.phase.listing, s.phase.cutoff), s.phase.cutoff, lb)
  {
    ItemSnapshotsAre(s.phase.listing.snapshots, s.phase.cutoff, sn.id);
    assert sn in s.phase.listing.snapshots;
    assert lb.backup.DetailsRef() in SeenBy(s.phase.listing, s.phase.cutoff).deets;
  }

  lemma NoAssistTakesThem(s: State, gcBuffer: nat, lb: ListedBackup, sn: Snapshot, dt: Time, j: int)
    requires Inv(s, gcBuffer) && s.phase.AllListed?
    requires Finishes(s.written, lb, sn, dt)
    requires Complete(SeenBy(s.phase.listing, s.phase.cutoff), s.phase.cutoff, lb)
    requires SupersededAt(s.phase.listing.backups, SeenBy(s.phase.listing, s.phase.cutoff), s.phase.cutoff, j)
    ensures Pieces(lb.backup) !! AssistPieces(s.phase.listing.backups[j].backup)
  {
    var l, v := s.phase.listing, SeenBy(s.phase.listing, s.phase.cutoff);
    var other := l.backups[j];
    assert other in s.written.backups;
    ListingApart(s, gcBuffer, lb.backup.snapshotID);
    ListingApart(s, gcBuffer, other.backup.snapshotID);
    ListingApart(s, gcBuffer, lb.backup.modelID);
    ListingApart(s, gcBuffer, other.backup.modelID);
    PiecesApart(v, lb.backup, other.backup);
  }

  /** A cleanup that sees all of an old backup spares it. */
  lemma DeleteSpares(s: State, gone: set<ID>, gcBuffer: nat, lb: ListedBackup, sn: Snapshot, dt: Time)
    requires Inv(s, gcBuffer) && s.phase.AllListed? && AllBefore(s.phase.start, lb, sn, dt)
    requires IsDeleted(s.phase.listing, s.phase.cutoff, gone)
    requires Finishes(s.written, lb, sn, dt) && AllBefore(s.phase.cutoff, lb, sn, dt)
    requires Pieces(lb.backup) !! s.lost
    ensures Pieces(lb.backup) !! gone
  {
    var l, v := s.phase.listing, SeenBy(s.phase.listing, s.phase.cutoff);
    ListingComplete(s, gcBuffer, lb, sn, dt);
    var i :| 0 <= i < |l.backups| && l.backups[i] == lb;
    forall x | x in Pieces(lb.backup)
      ensures x !in gone
    {
      assert Shields(l.backups, v, s.phase.cutoff, i, x);
      forall j
        ensures !DeletedPiece(l.backups, v, s.phase.cutoff, j, x)
      {
        if SupersededAt(l.backups, v, s.phase.cutoff, j) {
          NoAssistTakesThem(s, gcBuffer, lb, sn, dt, j);
        }
      }
    }
  }

  lemma DeleteKeepsClaim(s: State, s': State, gone: set<ID>, gcBuffer: nat, lb: ListedBackup, sn: Snapshot, dt: Time)
    requires Inv(s, gcBuffer) && Inv(s', gcBuffer) && Claim(s, gcBuffer) && Step(s, s', Delete(gone), gcBuffer)
    requires Finishes(s'.written, lb, sn, dt) && Undisturbed(s'.log, lb, sn, dt)
    ensures Unharmed(s'.log, lb.backup)
  {
    var f := s'.log[|s.log|];
    assert f in s'.log && forall g :: g in s.log ==> g in s'.log;
    assert Unharmed(s.log, lb.backup);
    if AllBefore(f.cutoff, lb, sn, dt) {
      DeleteSpares(s, gone, gcBuffer, lb, sn, dt);
    } else {
      YoungUnharmed(s'.written, f, gcBuffer, lb, sn, dt);
    }
  }

  /** A backup that was not finished before the step is finished by it. */
  lemma FinishedByStep(s: State, s': State, e: Event, gcBuffer: nat, lb: ListedBackup, sn: Snapshot, dt: Time)
    requires Step(s, s', e, gcBuffer) && Finishes(s'.written, lb, sn, dt)
    ensures Finishes(s.written, lb, sn, dt) || lb.backup.modTime == s.now || sn.modTime == s.now || dt == s.now
  {
  }

  lemma StepKeepsClaim(s: State, s': State, e: Event, gcBuffer: nat)
    requires Inv(s, gcBuffer) && Inv(s', gcBuffer) && Claim(s, gcBuffer) && Step(s, s', e, gcBuffer)
    ensures Claim(s', gcBuffer)
  {
    forall lb, sn, dt | Finishes(s'.written, lb, sn, dt) && Undisturbed(s'.log, lb, sn, dt)
      ensures Unharmed(s'.log, lb.backup)
    {
      if e.Delete? {
        DeleteKeepsClaim(s, s', e.gone, gcBuffer, lb, sn, dt);
      } else {
        FinishedByStep(s, s', e, gcBuffer, lb, sn, dt);
        NewlyFinished(s, s', gcBuffer, lb, sn, dt);
      }
    }
  }

  lemma {:induction false} RunKeepsClaim(trace: seq<State>, gcBuffer: nat)
    requires Run(trace, gcBuffer)
    ensures Claim(trace[|trace| - 1], gcBuffer)
    decreases |trace|
  {
    if |trace| > 1 {
      var init := trace[..|trace| - 1];
      RunKeepsClaim(init, gcBuffer);
      RunKeeps(init, gcBuffer);
      RunKeeps(trace, gcBuffer);
      var e :| Step(trace[|trace| - 2], trace[|trace| - 1], e, gcBuffer);
      StepKeepsClaim(trace[|trace| - 2], trace[|trace| - 1], e, gcBuffer);
    }
  }

  /**
   In every run, a finished backup other than an assist backup keeps all its pieces
   through every cleanup whose cutoff is outside its write span, however long it takes,
   unless it had started to list before a piece was written that its cutoff calls old.
   */
  lemma FinishedBackupSurvives(trace: seq<State>, gcBuffer: nat, lb: ListedBackup, sn: Snapshot, dt: Time)
    requires Run(trace, gcBuffer)
    requires var s := trace[|trace| - 1];
      Finishes(s.written, lb, sn, dt) && Undisturbed(s.log, lb, sn, dt)
    ensures var s := trace[|trace| - 1];
      && lb in Present(s).backups && sn in Present(s).snapshots
      && lb.backup.DetailsRef() !in s.lost
  {
    var s := trace[|trace| - 1];
    RunKeeps(trace, gcBuffer);
    RunKeepsClaim(trace, gcBuffer);
    KeptBackups(s.written.backups, s.lost, lb);
    KeptSnapshots(s.written.snapshots, s.lost, sn);
  }

  // ---------------------------------------------------------------------------
  // Cleanups that read the clock late
  // ---------------------------------------------------------------------------

  lemma RunSnoc(trace: seq<State>, s': State, e: Event, gcBuffer: nat)
    requires Run(trace, gcBuffer) && Step(trace[|trace| - 1], s', e, gcBuffer)
    ensures Run(trace + [s'], gcBuffer)
  {
    assert (trace + [s'])[..|trace|] == trace;
    assert Next(trace[|trace| - 1], s', gcBuffer);
  }

  /** What the listings show of a backup whose snapshot was written behind the first of them. */
  lemma HalfListedIsDeleted(d: DetailsModel, b: Backup, cutoff: Time, id: ID)
    requires d.modTime < cutoff && b.modTime < cutoff
    ensures Deleted(Store([], [d], [ListedBackup(b, Loads)]), cutoff, id) <==> id == d.id || id == b.modelID
  {
    var st := Store([], [d], [ListedBackup(b, Loads)]);
    var v := SeenBy(st, cutoff);
    assert v.data == map[];
    assert OldModel(st.backups, cutoff, 0, b.modelID);
    assert d in st.details;
    assert forall i :: !Shields(st.backups, v, cutoff, i, id) && !SupersededAt(st.backups, v, cutoff, i);
  }

  /** A finished merge backup whose pieces were all written at the beginning. */
  predicate WrittenAtOnce(sn: Snapshot, d: DetailsModel, b: Backup) {
    && sn.modTime == d.modTime == b.modTime == 0
    && ItemData(sn) && sn.id == b.snapshotID && d.id == b.DetailsRef() && !b.TaggedAssist()
    && sn.id != "" && d.id != "" && b.modelID != ""
    && sn.id != d.id && sn.id != b.modelID && d.id != b.modelID
  }

  /** The backup is finished, and lost its model and its details to a cleanup whose cutoff is after all its pieces. */
  ghost predicate LosesBackup(s: State, sn: Snapshot, d: DetailsModel, b: Backup) {
    && Finishes(s.written, ListedBackup(b, Loads), sn, d.modTime)
    && exists f ::
       f in s.log && AllBefore(f.cutoff, ListedBackup(b, Loads), sn, d.modTime) && {b.modelID, d.id} <= f.gone
  }

  /**
   Why the start of the listing matters: whatever the buffer, a cleanup that lists snapshots,
   and reads the clock only after the buffer has passed, deletes the model and the details of
   every backup that was written in between.
   */
  lemma LateClockLosesBackup(gcBuffer: nat, sn: Snapshot, d: DetailsModel, b: Backup) returns (trace: seq<State>)
    requires WrittenAtOnce(sn, d, b)
    ensures Run(trace, gcBuffer) && LosesBackup(trace[|trace| - 1], sn, d, b)
  {
    var s0 := State(0, Store([], [], []), {}, Idle, []);
    var s1 := s0.(phase := SnapshotsListed(0, []));
    trace := [s0] + [s1];
    RunSnoc([s0], s1, ListSnapshots, gcBuffer);
    var s2 := s1.(written := Store([sn], [], []));
    RunSnoc(trace, s2, WriteSnapshot(sn), gcBuffer);
    trace := trace + [s2];
    var s3 := s2.(written := Store([sn], [d], []));
    RunSnoc(trace, s3, WriteDetails(d), gcBuffer);
    trace := trace + [s3];
    var lb := ListedBackup(b, Loads);
    var s4 := s3.(written := Store([sn], [d], [lb]));
    RunSnoc(trace, s4, WriteBackup(b), gcBuffer);
    trace := trace + [s4];
    trace := LateCleanup(gcBuffer, trace, sn, d, b);
  }

  /** The rest of the run: the clock is read, details and models are listed. */
  lemma LateCleanup(gcBuffer: nat, before: seq<State>, sn: Snapshot, d: DetailsModel, b: Backup)
    returns (trace: seq<State>)
    requires WrittenAtOnce(sn, d, b) && Run(before, gcBuffer)
    requires before[|before| - 1] ==
      State(0, Store([sn], [d], [ListedBackup(b, Loads)]), {}, SnapshotsListed(0, []), [])
    ensures Run(trace, gcBuffer) && LosesBackup(trace[|trace| - 1], sn, d, b)
  {
    var lb, s4 := ListedBackup(b, Loads), before[|before| - 1];
    NothingLost(sn, d, lb);
    var s5 := s4.(now := gcBuffer + 1);
    RunSnoc(before, s5, Tick, gcBuffer);
    var s6 := s5.(phase := ClockRead(0, [], 1));
    RunSnoc(before + [s5], s6, ReadClock, gcBuffer);
    var s7 := s6.(phase := DetailsListed(0, [], 1, [d]));
    assert Step(s6, s7, ListDetails, gcBuffer);
    RunSnoc(before + [s5] + [s6], s7, ListDetails, gcBuffer);
    var s8 := s7.(phase := AllListed(0, 1, Store([], [d], [lb])));
    assert Step(s7, s8, ListBackups, gcBuffer);
    RunSnoc(before + [s5] + [s6] + [s7], s8, ListBackups, gcBuffer);
    var s9 := s8.(phase := Idle, lost := {d.id, b.modelID}, log := [Finished(0, 1, gcBuffer + 1, {d.id, b.modelID})]);
    LateDelete(gcBuffer, s8, s9, sn, d, b);
    RunSnoc(before + [s5] + [s6] + [s7] + [s8], s9, Delete({d.id, b.modelID}), gcBuffer);
    trace := before + [s5] + [s6] + [s7] + [s8] + [s9];
  }

  lemma NothingLost(sn: Snapshot, d: DetailsModel, lb: ListedBackup)
    ensures Without(Store([sn], [d], [lb]), {}) == Store([sn], [d], [lb])
  {
    assert [sn][..0] == [] && [d][..0] == [] && [lb][..0] == [];
    assert KeepSnapshots([], {}) == [] && KeepDetails([], {}) == [] && KeepBackups([], {}) == [];
    assert KeepSnapshots([sn], {}) == [sn];
    assert KeepDetails([d], {}) == [d];
    assert KeepBackups([lb], {}) == [lb];
  }

  lemma LateDelete(gcBuffer: nat, s: State, s': State, sn: Snapshot, d: DetailsModel, b: Backup)
    requires WrittenAtOnce(sn, d, b)
    requires s == State(gcBuffer + 1, Store([sn], [d], [ListedBackup(b, Loads)]), {},
                        AllListed(0, 1, Store([], [d], [ListedBackup(b, Loads)])), [])
    requires s' ==
      s.(phase := Idle, lost := {d.id, b.modelID}, log := [Finished(0, 1, gcBuffer + 1, {d.id, b.modelID})])
    ensures Step(s, s', Delete({d.id, b.modelID}), gcBuffer)
    ensures LosesBackup(s', sn, d, b)
  {
    forall id
      ensures id in {d.id, b.modelID} <==> Deleted(s.phase.listing, 1, id)
    {
      HalfListedIsDeleted(d, b, 1, id);
    }
    assert IsDeleted(s.phase.listing, 1, {d.id, b.modelID});
    assert s'.log[0] in s'.log && AllBefore(s'.log[0].cutoff, ListedBackup(b, Loads), sn, d.modTime);
    assert d in s'.written.details && IsDetails(s'.written, d.id, d.modTime);
  }
}
