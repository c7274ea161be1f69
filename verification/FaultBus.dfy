/**
 The fault bus: errors recorded on a root bus or on any local bus made from it reach the
 root, and a failure once set stays.
 */
module FaultBus {
  import opened Wrappers

  datatype Fault = Fault(message: string)

  datatype BusState = BusState(failure: Option<Fault>, recoverable: seq<Fault>, skipped: seq<string>,
                               alerts: seq<string>)

  const EMPTY := BusState(None, [], [], [])

  /** `setFailure` on one bus: further failures overflow into the recoverable errors. */
  function WithFailure(b: BusState, e: Fault): BusState {
    if b.failure.None? then b.(failure := Some(e)) else b.(recoverable := b.recoverable + [e])
  }

  predicate Promotes(b: BusState, failFast: bool) {
    failFast && b.failure.None?
  }

  /** `addRecoverableErr` on one bus: when failing fast, the first error also becomes the failure. */
  function WithRecoverable(b: BusState, failFast: bool, e: Fault): BusState {
    var promoted := if Promotes(b, failFast) then b.(failure := Some(e)) else b;
    promoted.(recoverable := promoted.recoverable + [e])
  }

  /** What the root makes of an error added to a local bus: a promoted error reaches it twice. */
  function RootWithRecoverable(root: BusState, local: BusState, failFast: bool, e: Fault): BusState {
    WithRecoverable(if Promotes(local, failFast) then WithFailure(root, e) else root, failFast, e)
  }

  class Bus {
    const parent: Bus?
    const failFast: bool
    var failure: Option<Fault>
    var recoverable: seq<Fault>
    var skipped: seq<string>
    var alerts: seq<string>

    /** The parent of a local bus is the root. */
    predicate Valid() {
      parent != null ==> parent.parent == null && parent.failFast == failFast
    }

    ghost function State(): BusState
      reads this
    {
      BusState(failure, recoverable, skipped, alerts)
    }

    constructor New(failFast: bool)
      ensures Valid() && parent == null && this.failFast == failFast && State() == EMPTY
    {
      parent, this.failFast := null, failFast;
      failure, recoverable, skipped, alerts := None, [], [], [];
    }

    constructor LocalTo(root: Bus)
      requires root.parent == null
      ensures Valid() && parent == root && failFast == root.failFast && State() == EMPTY
    {
      parent, failFast := root, root.failFast;
      failure, recoverable, skipped, alerts := None, [], [], [];
    }

    /** A local bus of a local bus has the same root. */
    method Local() returns (local: Bus)
      requires Valid()
      ensures fresh(local) && local.Valid() && local.State() == EMPTY
      ensures local.parent == (if parent == null then this else parent)
      ensures local.failFast == failFast
    {
      var root := if parent == null then this else parent;
      local := new Bus.LocalTo(root);
    }

    method Fail(err: Option<Fault>)
      requires Valid()
      modifies this, parent
      ensures State() == if err.None? then old(State()) else WithFailure(old(State()), err.value)
      ensures parent != null ==>
        parent.State() == if err.None? then old(parent.State()) else WithFailure(old(parent.State()), err.value)
    {
      if err.None? {
        return;
      }
      SetFailure(err.value);
    }

    method SetFailure(err: Fault)
      requires Valid()
      modifies this, parent
      ensures State() == WithFailure(old(State()), err)
      ensures parent != null ==> parent.State() == WithFailure(old(parent.State()), err)
      decreases if parent == null then 0 else 1
    {
      if failure.None? {
        failure := Some(err);
      } else {
        recoverable := recoverable + [err];
      }
      if parent != null {
        parent.SetFailure(err);
      }
    }

    method AddRecoverable(err: Option<Fault>)
      requires Valid()
      modifies this, parent
      ensures State() == if err.None? then old(State()) else WithRecoverable(old(State()), failFast, err.value)
      ensures parent != null ==>
        parent.State() == if err.None? then old(parent.State())
                          else RootWithRecoverable(old(parent.State()), old(State()), failFast, err.value)
    {
      if err.None? {
        return;
      }
      var isFail := AddRecoverableErr(err.value);
    }

    method AddRecoverableErr(err: Fault) returns (isFail: bool)
      requires Valid()
      modifies this, parent
      ensures State() == WithRecoverable(old(State()), failFast, err)
      ensures parent != null ==> parent.State() == RootWithRecoverable(old(parent.State()), old(State()), failFast, err)
      ensures isFail == Promotes(old(State()), failFast)
      decreases if parent == null then 0 else 1
    {
      isFail := false;
      if failure.None? && failFast {
        failure := Some(err);
        if parent != null {
          parent.SetFailure(err);
        }
        isFail := true;
      }
      recoverable := recoverable + [err];
      if parent != null {
        var _ := parent.AddRecoverableErr(err);
      }
    }

    method AddSkip(s: string)
      requires Valid()
      modifies this, parent
      ensures State() == old(State()).(skipped := old(skipped) + [s])
      ensures parent != null ==> parent.State() == old(parent.State()).(skipped := old(parent.skipped) + [s])
      decreases if parent == null then 0 else 1
    {
      skipped := skipped + [s];
      if parent != null {
        parent.AddSkip(s);
      }
    }

    method AddAlert(a: string)
      requires Valid()
      modifies this, parent
      ensures State() == old(State()).(alerts := old(alerts) + [a])
      ensures parent != null ==> parent.State() == old(parent.State()).(alerts := old(parent.alerts) + [a])
      decreases if parent == null then 0 else 1
    {
      alerts := alerts + [a];
      if parent != null {
        parent.AddAlert(a);
      }
    }
  }

  // ---------------------------------------------------------------------------
  // A root and its local busses, under any interleaving of operations
  // ---------------------------------------------------------------------------

  /** Bus 0 is the root. */
  datatype Operation =
    | MakeLocal
    | Fails(bus: nat, err: Fault)
    | Recovers(bus: nat, err: Fault)
    | Skips(bus: nat, item: string)
    | Alerts(bus: nat, message: string)

  datatype Family = Family(failFast: bool, buses: seq<BusState>)

  function Start(failFast: bool): Family {
    Family(failFast, [EMPTY])
  }

  predicate Applies(f: Family, op: Operation) {
    && f.buses != []
    && (!op.MakeLocal? ==> op.bus < |f.buses|)
  }

  function Apply(f: Family, op: Operation): (r: Family)
    requires Applies(f, op)
    ensures r.failFast == f.failFast && |f.buses| <= |r.buses|
  {
    match op
    case MakeLocal => f.(buses := f.buses + [EMPTY])
    case Fails(i, e) =>
      f.(buses := f.buses[0 := WithFailure(f.buses[0], e)][i := WithFailure(f.buses[i], e)])
    case Recovers(i, e) =>
      if i == 0 then f.(buses := f.buses[0 := WithRecoverable(f.buses[0], f.failFast, e)])
      else
        f.(buses := f.buses[0 := RootWithRecoverable(f.buses[0], f.buses[i], f.failFast, e)]
                           [i := WithRecoverable(f.buses[i], f.failFast, e)])
    case Skips(i, s) =>
      f.(buses := f.buses[0 := f.buses[0].(skipped := f.buses[0].skipped + [s])]
                         [i := f.buses[i].(skipped := f.buses[i].skipped + [s])])
    case Alerts(i, a) =>
      f.(buses := f.buses[0 := f.buses[0].(alerts := f.buses[0].alerts + [a])]
                         [i := f.buses[i].(alerts := f.buses[i].alerts + [a])])
  }

  /** The busses are the family `f`: the first is the root, and it is the parent of all others. */
  ghost predicate Represents(buses: seq<Bus>, f: Family)
    reads buses
  {
    && |buses| == |f.buses| && buses != []
    && buses[0].parent == null
    && (forall i :: 0 < i < |buses| ==> buses[i].parent == buses[0])
    && (forall i, j :: 0 <= i < j < |buses| ==> buses[i] != buses[j])
    && (forall i :: 0 <= i < |buses| ==> buses[i].failFast == f.failFast && buses[i].State() == f.buses[i])
  }

  /** Any operation on any bus of a family; a local bus made from a local bus has the same root. */
  method Perform(buses: seq<Bus>, ghost f: Family, op: Operation, from: nat) returns (now: seq<Bus>)
    requires Represents(buses, f) && Applies(f, op) && from < |buses|
    modifies buses
    ensures Represents(now, Apply(f, op)) && buses <= now
  {
    now := buses;
    match op {
      case MakeLocal =>
        var local := buses[from].Local();
        now := buses + [local];
      case Fails(i, e) => buses[i].Fail(Some(e));
      case Recovers(i, e) => buses[i].AddRecoverable(Some(e));
      case Skips(i, s) => buses[i].AddSkip(s);
      case Alerts(i, a) => buses[i].AddAlert(a);
    }
  }

  ghost predicate Runs(f: Family, ops: seq<Operation>)
    decreases |ops|, 0
  {
    ops == [] || (Runs(f, ops[..|ops| - 1]) && Applies(After(f, ops[..|ops| - 1]), ops[|ops| - 1]))
  }

  ghost function After(f: Family, ops: seq<Operation>): (r: Family)
    requires Runs(f, ops)
    ensures r.failFast == f.failFast
    decreases |ops|, 1
  {
    if ops == [] then f else Apply(After(f, ops[..|ops| - 1]), ops[|ops| - 1])
  }

  predicate Records(b: BusState, e: Fault) {
    b.failure == Some(e) || e in b.recoverable
  }

  /** The error an operation reports. */
  predicate Reports(op: Operation, e: Fault) {
    (op.Fails? || op.Recovers?) && op.err == e
  }

  ghost predicate Reported(ops: seq<Operation>, e: Fault) {
    exists i :: 0 <= i < |ops| && Reports(ops[i], e)
  }

  /** Everything a bus records, the root records; a failed bus means a failed root. */
  predicate RootCovers(root: BusState, b: BusState) {
    && (b.failure.Some? ==> root.failure.Some?)
    && (b.failure.Some? ==> Records(root, b.failure.value))
    && (forall e :: e in b.recoverable ==> Records(root, e))
  }

  ghost predicate FamilyOk(f: Family) {
    && f.buses != []
    && (forall i :: 0 <= i < |f.buses| ==> RootCovers(f.buses[0], f.buses[i]))
    && (f.failFast ==> forall i :: 0 <= i < |f.buses| && f.buses[i].recoverable != [] ==> f.buses[i].failure.Some?)
  }

  /** `b'` records all that `b` does, and keeps its failure. */
  predicate Extends(b: BusState, b': BusState) {
    && (b.failure.Some? ==> b'.failure == b.failure)
    && b.recoverable <= b'.recoverable && b.skipped <= b'.skipped && b.alerts <= b'.alerts
  }

  lemma RootExtends(f: Family, op: Operation)
    requires FamilyOk(f) && Applies(f, op)
    ensures forall i :: 0 <= i < |f.buses| ==> Extends(f.buses[i], Apply(f, op).buses[i])
  {
  }

  lemma ApplyKeeps(f: Family, op: Operation)
    requires FamilyOk(f) && Applies(f, op)
    ensures FamilyOk(Apply(f, op))
  {
    var f' := Apply(f, op);
    RootExtends(f, op);
    forall i | 0 <= i < |f'.buses|
      ensures RootCovers(f'.buses[0], f'.buses[i])
      ensures f.failFast && f'.buses[i].recoverable != [] ==> f'.buses[i].failure.Some?
    {
    }
  }

  /** Over any interleaving the root covers every bus, and records every error reported on any. */
  lemma {:induction false} FamilyInvariant(failFast: bool, ops: seq<Operation>, e: Fault)
    requires Runs(Start(failFast), ops)
    ensures FamilyOk(After(Start(failFast), ops))
    ensures Reported(ops, e) ==> Records(After(Start(failFast), ops).buses[0], e)
  {
    if ops != [] {
      var init, op := ops[..|ops| - 1], ops[|ops| - 1];
      FamilyInvariant(failFast, init, e);
      ApplyKeeps(After(Start(failFast), init), op);
      if i :| 0 <= i < |ops| && Reports(ops[i], e) && i < |init| {
        assert init[i] == ops[i];
      }
    }
  }

  /** Whatever happens later, a bus keeps its failure and what it recorded. */
  lemma {:induction false} FailureNeverChanges(failFast: bool, ops: seq<Operation>, n: nat, i: nat)
    requires n <= |ops| && Runs(Start(failFast), ops)
    ensures Runs(Start(failFast), ops[..n])
    ensures i < |After(Start(failFast), ops[..n]).buses| ==>
      i < |After(Start(failFast), ops).buses|
      && Extends(After(Start(failFast), ops[..n]).buses[i], After(Start(failFast), ops).buses[i])
    decreases |ops|
  {
    if n == |ops| {
      assert ops[..n] == ops;
    } else {
      var init := ops[..|ops| - 1];
      FailureNeverChanges(failFast, init, n, i);
      assert init[..n] == ops[..n];
      FamilyInvariant(failFast, init, Fault(""));
      RootExtends(After(Start(failFast), init), ops[|ops| - 1]);
    }
  }

  /** When failing fast, any reported error leaves the root failed. */
  lemma FailFastFails(ops: seq<Operation>, e: Fault)
    requires Runs(Start(true), ops) && Reported(ops, e)
    ensures After(Start(true), ops).buses[0].failure.Some?
  {
    FamilyInvariant(true, ops, e);
  }
}
