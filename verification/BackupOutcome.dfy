/**
 How a backup operation ends: whether a backup model is stored, of which type, and
 whether the operation reports a failure.
 */
module BackupOutcome {
  import opened Wrappers
  import opened FaultBus
  import opened ManifestStore

  datatype FailurePolicy = FailFast | FailAfterRecovery | BestEffort

  predicate IsAssistBackup(newDeetsProduced: bool, snapID: ID, ssid: ID, policy: FailurePolicy, errs: BusState) {
    newDeetsProduced && snapID != "" && ssid != "" && policy != BestEffort && errs.failure.None? &&
      errs.recoverable != []
  }

  predicate IsMergeBackup(snapID: ID, ssid: ID, policy: FailurePolicy, errs: BusState) {
    if snapID == "" || ssid == "" then false
    else if errs.failure.Some? then false
    else if policy == BestEffort then true
    else errs.recoverable == []
  }

  datatype Status = Completed | Failed | NoData | InProgress

  /** What running the backup left behind; None where it never came to it. */
  datatype Stats = Stats(snapshotID: Option<ID>, populated: Option<bool>, hasNewDetailEntries: bool)

  /** What storing the details and the model would yield. */
  datatype Storage = Storage(hasDetails: bool, collects: bool, written: Option<ID>, stores: bool)

  /** The tag of the model that would be stored. */
  function TypeTag(preview: bool, newDeets: bool, snapID: ID, ssid: ID, policy: FailurePolicy,
                   errs: BusState): Option<string> {
    if preview then
      if IsMergeBackup(snapID, ssid, policy, errs) then Some(PREVIEW_BACKUP) else None
    else if IsMergeBackup(snapID, ssid, policy, errs) then Some(MERGE_BACKUP)
    else if IsAssistBackup(newDeets, snapID, ssid, policy, errs) then Some(ASSIST_BACKUP)
    else None
  }

  class BackupOperation {
    const policy: FailurePolicy
    const preview: bool
    const errors: Bus
    var status: Status
    /** The type of the model that was stored. */
    var storedType: Option<string>

    constructor (policy: FailurePolicy, preview: bool)
      ensures fresh(errors) && errors.Valid() && errors.parent == null && errors.State() == EMPTY
      ensures errors.failFast == (policy == FailFast)
      ensures this.policy == policy && this.preview == preview && storedType.None?
    {
      this.policy, this.preview := policy, preview;
      var bus := new Bus.New(policy == FailFast);
      errors := bus;
      status, storedType := InProgress, None;
    }

    method PersistResults(opStats: Stats) returns (err: Option<Fault>)
      modifies this`status
      ensures err.None? <==> errors.failure.None? && opStats.snapshotID.Some? && opStats.populated.Some?
      ensures status == if err.Some? then Failed else if !opStats.populated.value then NoData else Completed
    {
      status := Completed;
      if errors.failure.Some? {
        status := Failed;
      }
      if opStats.snapshotID.None? {
        status := Failed;
        return Some(Fault("backup persistence never completed"));
      }
      if opStats.populated.None? {
        status := Failed;
        return Some(Fault("backup population never completed"));
      }
      if status != Failed && !opStats.populated.value {
        status := NoData;
      }
      return errors.failure;
    }

    method CreateBackupModels(opStats: Stats, storage: Storage) returns (err: Option<Fault>)
      requires opStats.snapshotID.Some? && storedType.None?
      modifies this`storedType
      ensures storedType == Stored(preview, policy, opStats, storage, errors.State())
      ensures err.None? <==> storedType.Some?
    {
      var snapID := opStats.snapshotID.value;
      if errors.failure.Some? {
        return errors.failure;
      }
      if !storage.hasDetails {
        return Some(Fault("no backup details to record"));
      }
      if snapID == "" {
        return Some(Fault("no snapshot ID to record"));
      }
      if !storage.collects {
        return Some(Fault("collecting details for persistence"));
      }
      if storage.written.None? {
        return Some(Fault("persisting details and errors"));
      }
      var ssid := storage.written.value;
      var errs := BusState(errors.failure, errors.recoverable, errors.skipped, errors.alerts);
      var tag;
      if preview {
        if !IsMergeBackup(snapID, ssid, policy, errs) {
          return Some(Fault("failed preview backup"));
        }
        tag := PREVIEW_BACKUP;
      } else if IsMergeBackup(snapID, ssid, policy, errs) {
        tag := MERGE_BACKUP;
      } else if IsAssistBackup(opStats.hasNewDetailEntries, snapID, ssid, policy, errs) {
        tag := ASSIST_BACKUP;
      } else {
        return Some(Fault("unable to determine backup type due to operation errors"));
      }
      if !storage.stores {
        return Some(Fault("creating backup model"));
      }
      storedType := Some(tag);
      return None;
    }

    method DoPersistence(opStats: Stats, storage: Storage)
      requires errors.Valid() && errors.parent == null && storedType.None?
      modifies this, errors
      ensures storedType == FinalType(preview, policy, opStats, storage, old(errors.State()))
      ensures Extends(old(errors.State()), errors.State())
      ensures storedType.None? ==> errors.failure.Some?
      ensures storedType.Some? ==> errors.State() == old(errors.State())
    {
      var err := PersistResults(opStats);
      if err.Some? {
        errors.Fail(err);
        return;
      }
      err := CreateBackupModels(opStats, storage);
      if err.Some? {
        errors.Fail(err);
      }
    }

    /** `finalizeErrorHandling`: recovered errors become a failure, if the policy says so. */
    method FinalizeErrorHandling()
      requires errors.Valid() && errors.parent == null
      modifies errors
      ensures Extends(old(errors.State()), errors.State())
      ensures errors.failure.Some? <==>
        old(errors.failure).Some? || (policy == FailAfterRecovery && old(errors.recoverable) != [])
    {
      if policy == BestEffort || errors.failure.Some? || |errors.recoverable| == 0 {
        return;
      }
      if policy == FailAfterRecovery {
        if |errors.recoverable| == 1 {
          errors.Fail(Some(errors.recoverable[0]));
          return;
        }
        errors.Fail(Some(Fault("partial success")));
      }
    }

    /**
     The end of `Run`.  A model is stored of the type that the recorded errors allow; if
     none is stored, or the stored one is an assist backup, the operation reports a failure.
     */
    method Finish(opStats: Stats, storage: Storage) returns (failure: Option<Fault>)
      requires errors.Valid() && errors.parent == null && storedType.None?
      modifies this, errors
      ensures storedType == FinalType(preview, policy, opStats, storage, old(errors.State()))
      ensures Extends(old(errors.State()), errors.State())
      ensures failure == errors.failure
      ensures failure.Some? <==> storedType.None? || (policy == FailAfterRecovery && old(errors.recoverable) != [])
      ensures storedType == Some("assist-backup") && AsRunsLeaveIt(policy == FailFast, old(errors.State())) ==>
        failure.Some?
    {
      assert |ASSIST_BACKUP| != |MERGE_BACKUP| && |ASSIST_BACKUP| != |PREVIEW_BACKUP|;
      DoPersistence(opStats, storage);
      FinalizeErrorHandling();
      return errors.failure;
    }
  }

  /** The type of the model `createBackupModels` stores. */
  function Stored(preview: bool, policy: FailurePolicy, opStats: Stats, storage: Storage,
                  errs: BusState): Option<string>
    requires opStats.snapshotID.Some?
  {
    if errs.failure.Some? || !storage.hasDetails || opStats.snapshotID.value == "" || !storage.collects
       || storage.written.None? || !storage.stores then None
    else TypeTag(preview, opStats.hasNewDetailEntries, opStats.snapshotID.value, storage.written.value, policy, errs)
  }

  function FinalType(preview: bool, policy: FailurePolicy, opStats: Stats, storage: Storage,
                     errs: BusState): Option<string> {
    if errs.failure.Some? || opStats.snapshotID.None? || opStats.populated.None? then None
    else Stored(preview, policy, opStats, storage, errs)
  }

  // ---------------------------------------------------------------------------
  // What a stored model says about the run
  // ---------------------------------------------------------------------------

  /** Everything was there to store a model. */
  predicate Storable(opStats: Stats, storage: Storage) {
    && opStats.snapshotID.Some? && opStats.snapshotID.value != "" && opStats.populated.Some?
    && storage.hasDetails && storage.collects && storage.stores && storage.written.Some? && storage.written.value != ""
  }

  predicate FailsWith(op: Operation, e: Fault) {
    op.Fails? && op.err == e
  }

  /** Some bus was told to fail. */
  ghost predicate ToldToFail(ops: seq<Operation>) {
    exists i, e :: 0 <= i < |ops| && FailsWith(ops[i], e)
  }

  ghost predicate NothingReported(ops: seq<Operation>) {
    forall e :: !Reported(ops, e)
  }

  lemma ToldToFailLast(ops: seq<Operation>)
    requires ops != []
    ensures ToldToFail(ops) <==> ToldToFail(ops[..|ops| - 1]) || ops[|ops| - 1].Fails?
  {
    var init, op := ops[..|ops| - 1], ops[|ops| - 1];
    assert forall i :: 0 <= i < |init| ==> init[i] == ops[i];
    assert op.Fails? ==> FailsWith(op, op.err);
  }

  lemma NothingReportedLast(ops: seq<Operation>)
    requires ops != []
    ensures NothingReported(ops) <==>
      NothingReported(ops[..|ops| - 1]) && !ops[|ops| - 1].Fails? && !ops[|ops| - 1].Recovers?
  {
    var init, op := ops[..|ops| - 1], ops[|ops| - 1];
    forall e
      ensures Reported(ops, e) <==> Reported(init, e) || Reports(op, e)
    {
    }
    if op.Fails? || op.Recovers? {
      assert Reports(op, op.err);
      assert Reported(ops, op.err);
    }
    forall e | Reported(init, e)
      ensures Reported(ops, e)
    {
    }
  }

  /**
   What the root shows: it has failed exactly if some bus was told to fail, or failing fast
   if anything was reported; and it is clean exactly if nothing was reported anywhere.
   */
  lemma {:induction false} RootShows(failFast: bool, ops: seq<Operation>)
    requires Runs(Start(failFast), ops)
    ensures var root := After(Start(failFast), ops).buses[0];
      && (root.failure.Some? <==> ToldToFail(ops) || (failFast && !NothingReported(ops)))
      && (root.failure.None? && root.recoverable == [] <==> NothingReported(ops))
  {
    FamilyInvariant(failFast, ops, Fault(""));
    if ops != [] {
      var init := ops[..|ops| - 1];
      RootShows(failFast, init);
      FamilyInvariant(failFast, init, Fault(""));
      ToldToFailLast(ops);
      NothingReportedLast(ops);
    }
  }

  /** When failing fast, nothing is recovered from without a failure. */
  predicate AsRunsLeaveIt(failFast: bool, root: BusState) {
    failFast && root.recoverable != [] ==> root.failure.Some?
  }

  lemma RunsLeaveItSo(failFast: bool, ops: seq<Operation>)
    requires Runs(Start(failFast), ops)
    ensures AsRunsLeaveIt(failFast, After(Start(failFast), ops).buses[0])
  {
    RootShows(failFast, ops);
  }

  /**
   Exactly when a model of each type is stored, in terms of what was reported on any bus of
   the family while the backup ran.
   */
  lemma StoredTypeIffErrors(policy: FailurePolicy, ops: seq<Operation>, preview: bool, opStats: Stats, storage: Storage)
    requires Runs(Start(policy == FailFast), ops)
    ensures var stored := FinalType(preview, policy, opStats, storage, After(Start(policy == FailFast), ops).buses[0]);
      var sound := Storable(opStats, storage) && !ToldToFail(ops) && (policy != BestEffort ==> NothingReported(ops));
      && (stored == Some("merge-backup") <==> sound && !preview)
      && (stored == Some("preview-backup") <==> sound && preview)
      && (stored == Some("assist-backup") <==>
            && Storable(opStats, storage) && !preview && opStats.hasNewDetailEntries
            && policy == FailAfterRecovery && !ToldToFail(ops) && !NothingReported(ops))
  {
    RootShows(policy == FailFast, ops);
  }

  /** When failing fast, no model is stored after any error. */
  lemma FailFastStoresNothing(ops: seq<Operation>, e: Fault, preview: bool, opStats: Stats, storage: Storage)
    requires Runs(Start(true), ops) && Reported(ops, e)
    ensures FinalType(preview, FailFast, opStats, storage, After(Start(true), ops).buses[0]) == None
  {
    FailFastFails(ops, e);
  }
}
