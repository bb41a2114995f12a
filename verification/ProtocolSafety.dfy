/** What holds on every run, however the guards and snapshots race. */
module ProtocolSafety {
  import opened Wrappers
  import opened WritePlans
  import opened PlanRows
  import opened WriteProtocol

  ghost predicate AllSucceeded(row: PlanRow) {
    forall op | op in row.ops :: IsSuccess(op.status)
  }

  ghost predicate SomeSucceeded(row: PlanRow) {
    exists op | op in row.ops :: IsSuccess(op.status)
  }

  /** The aggregate plan status tells the truth about every persisted success. */
  ghost predicate NoHiddenPartialWrite(row: PlanRow) {
    && (SomeSucceeded(row) ==> row.status in {Partial, Applied, AlreadyApplied})
    && (IsSuccess(row.status) <==> AllSucceeded(row))
    && (row.status == Partial ==> SomeSucceeded(row))
  }

  /** A success is always backed by a stored receipt, and a replay offer by a reconciler. */
  predicate OpInv(op: OpRow) {
    && op.status !in {Partial, LegacyUnknown, Expired}
    && (IsSuccess(op.status) ==> op.receipt.Some? && op.receipt.value.status == op.status)
    && (op.status == RetryableNotApplied ==> op.reconciled)
  }

  ghost predicate RowInv(row: PlanRow) {
    && |row.ops| > 0
    && (forall op | op in row.ops :: OpInv(op))
    && NoHiddenPartialWrite(row)
    && (row.leaseOwner.Some? <==> row.leaseExpires.Some?)
    && (row.leaseOwner.Some? ==> row.status == Executing || row.status == Partial)
    && (row.status == Issued || row.status == Expired ==> forall op | op in row.ops :: op.status == Issued)
  }

  /** What one transaction may change: successes stay, and a finished plan never un-finishes as ISSUED. */
  ghost predicate RowStep(row: PlanRow, row': PlanRow) {
    && |row'.ops| == |row.ops|
    && row'.header == row.header
    && (forall i | 0 <= i < |row.ops| :: row'.ops[i].payload == row.ops[i].payload)
    && (forall i | 0 <= i < |row.ops| && IsSuccess(row.ops[i].status) :: row'.ops[i] == row.ops[i])
    && (row'.status == Issued ==> row.status == Issued)
    && (row'.status == Expired ==> row.status == Issued || row.status == Expired)
  }

  lemma WithStatusKeepsRowInv(row: PlanRow, i: nat, op: OpRow, row': PlanRow)
    requires RowInv(row) && i < |row.ops| && OpInv(op)
    requires row'.ops == row.ops[i := op]
    requires row'.status == PersistedAggregate(WithOpStatus(row, i, op.status))
    ensures |row'.ops| > 0 && (forall o | o in row'.ops :: OpInv(o))
    ensures NoHiddenPartialWrite(row') && row'.status != Issued && row'.status != Expired
  {
    var statuses := WithOpStatus(row, i, op.status);
    assert statuses == Statuses(row'.ops);
    forall k | 0 <= k < |statuses| ensures statuses[k] != Partial {
      assert row.ops[k] in row.ops;
    }
    AggregateHidesNoSuccess(statuses);
    forall o | o in row'.ops ensures o.status in statuses {
      var k :| 0 <= k < |row'.ops| && row'.ops[k] == o;
      assert statuses[k] == o.status;
    }
    forall st | st in statuses ensures exists o :: o in row'.ops && o.status == st {
      var k :| 0 <= k < |statuses| && statuses[k] == st;
      assert row'.ops[k].status == st;
    }
  }

  lemma ClaimPlanKeepsRowInv(row: PlanRow, owner: Token, now: int, seconds: int, resume: bool)
    requires RowInv(row)
    ensures var row' := ClaimPlan(row, owner, now, seconds, resume).0; RowInv(row') && RowStep(row, row')
  {
    if row.status == Issued {
      assert row.ops[0] in row.ops;
    }
  }

  lemma ClaimOperationKeepsRowInv(row: PlanRow, i: nat, owner: Option<Token>, token: Token, now: int, seconds: int)
    requires RowInv(row)
    requires ClaimOperation(row, i, owner, token, now, seconds).Success?
    ensures var row' := ClaimOperation(row, i, owner, token, now, seconds).value; RowInv(row') && RowStep(row, row')
  {
    var row' := ClaimOperation(row, i, owner, token, now, seconds).value;
    assert row'.ops[i] in row'.ops && row.ops[i] in row.ops;
    if SomeSucceeded(row) {
      var op :| op in row.ops && IsSuccess(op.status);
      assert op in row'.ops by {
        var k :| 0 <= k < |row.ops| && row.ops[k] == op;
        assert row'.ops[k] == op;
      }
    }
  }

  lemma RecordReceiptKeepsRowInv(
    row: PlanRow, i: nat, receipt: Receipt, owner: Option<Token>, token: Option<Token>, now: int)
    requires RowInv(row) && AdapterResult(receipt.status)
    requires RecordReceipt(row, i, receipt, owner, token, now).Success?
    ensures var row' := RecordReceipt(row, i, receipt, owner, token, now).value; RowInv(row') && RowStep(row, row')
  {
    var row' := RecordReceipt(row, i, receipt, owner, token, now).value;
    WithStatusKeepsRowInv(row, i, row'.ops[i], row');
  }

  lemma RecordReconciliationKeepsRowInv(row: PlanRow, i: nat, receipt: Receipt)
    requires RowInv(row) && receipt.status !in {PlanStatus.Partial, PlanStatus.LegacyUnknown}
    requires RecordReconciliation(row, i, receipt).Success?
    ensures var row' := RecordReconciliation(row, i, receipt).value; RowInv(row') && RowStep(row, row')
  {
    var row' := RecordReconciliation(row, i, receipt).value;
    WithStatusKeepsRowInv(row, i, row'.ops[i], row');
  }

  lemma FenceKeepsRowInv(row: PlanRow, now: int)
    requires RowInv(row) && BeginReconcile(row, now).Success?
    ensures var row' := BeginReconcile(row, now).value; RowInv(row') && RowStep(row, row')
  {
    assert row.ops[0] in row.ops;
  }

  // ---- One call at a time -------------------------------------------------

  /** A returned result is one that adapters give. */
  predicate WorkerInv(w: Worker) {
    w.Returned? ==> AdapterResult(w.result)
  }

  predicate ReconcilerInv(r: Reconciler) {
    r.Observed? ==> r.verdict in {Applied, RetryableNotApplied, Conflict, Unknown}
  }

  ghost predicate WorkerMoveSafe(owner: Token, row: PlanRow, w: Option<Worker>, row': PlanRow, w': Worker) {
    && RowInv(row') && RowStep(row, row') && WorkerInv(w')
    && (row'.leaseOwner == row.leaseOwner || row'.leaseOwner == None
        || (row'.leaseOwner == Some(owner) && w'.Claimed?))
    && (BeforeClaim(w') ==> w.None? || BeforeClaim(w.value))
    && (row.status == Issued && w'.Claimed? ==> row'.status != Issued)
  }

  lemma QuietMoveIsSafe(row: PlanRow, clock: int, owner: Token, w: Option<Worker>, action: Action)
    requires RowInv(row) && (w.Some? ==> WorkerInv(w.value)) && !action.ClaimOp? && !action.Record?
    requires WorkerMove(row, clock, owner, w, action).Some?
    ensures var (row', w') := WorkerMove(row, clock, owner, w, action).value; WorkerMoveSafe(owner, row, w, row', w')
  {
    hide ClaimOperation, RecordReceipt, RowInv;
    match action
    case ConfirmClaim(now, seconds) => ClaimPlanKeepsRowInv(row, owner, now, seconds, false);
    case ResumeClaim(now, seconds) => ClaimPlanKeepsRowInv(row, owner, now, seconds, true);
    case _ =>
  }

  lemma WorkerMoveIsSafe(row: PlanRow, clock: int, owner: Token, w: Option<Worker>, action: Action)
    requires RowInv(row) && (w.Some? ==> WorkerInv(w.value))
    requires WorkerMove(row, clock, owner, w, action).Some?
    ensures var (row', w') := WorkerMove(row, clock, owner, w, action).value; WorkerMoveSafe(owner, row, w, row', w')
  {
    hide RowInv, RowStep, PersistedAggregate;
    match action
    case ClaimOp(token, seconds) =>
      ClaimOperationKeepsRowInv(row, w.value.next, Some(owner), token, clock, seconds);
    case Record =>
      RecordReceiptKeepsRowInv(row, w.value.next, ReceiptOf(w.value), Some(owner), Some(w.value.token), clock);
    case _ => QuietMoveIsSafe(row, clock, owner, w, action);
  }

  lemma ReconcilerMoveIsSafe(row: PlanRow, clock: int, r: Option<Reconciler>, inspection: Inspection)
    requires RowInv(row) && (r.Some? ==> ReconcilerInv(r.value))
    requires ReconcilerMove(row, clock, r, inspection).Some?
    ensures var (row', r') := ReconcilerMove(row, clock, r, inspection).value;
            && RowInv(row') && RowStep(row, row') && ReconcilerInv(r')
            && (row'.leaseOwner == row.leaseOwner || row'.leaseOwner == None)
  {
    match (r, inspection)
    case (None, Fence) => FenceKeepsRowInv(row, clock);
    case (Some(Scanning(rows, next)), RecordVerdict) =>
      RecordReconciliationKeepsRowInv(row, next, VerdictReceipt(rows[next], RetryableNotApplied));
    case (Some(Observed(rows, next, verdict)), RecordVerdict) =>
      RecordReconciliationKeepsRowInv(row, next, VerdictReceipt(rows[next], verdict));
    case _ =>
  }

  // ---- The whole system ---------------------------------------------------

  ghost predicate Safe(s: Sys) {
    && RowInv(s.row)
    && (s.row.leaseOwner.Some? ==>
          s.row.leaseOwner.value in s.workers && !BeforeClaim(s.workers[s.row.leaseOwner.value]))
    && (forall o | o in s.workers :: WorkerInv(s.workers[o]))
    && (forall r | r in s.reconcilers :: ReconcilerInv(s.reconcilers[r]))
    && |s.calls| == |s.row.ops|
    && |s.winners| <= 1
    && (s.row.status == Issued ==> s.winners == [])
  }

  lemma InitIsSafe(s: Sys)
    requires Init(s)
    ensures Safe(s)
  {
    assert s.row.ops[0] in s.row.ops;
  }

  lemma WorkKeepsSafe(s: Sys, owner: Token, action: Action, s': Sys)
    requires Safe(s) && Apply(s, Work(owner, action)) == Some(s')
    ensures Safe(s') && RowStep(s.row, s'.row)
  {
    hide WorkerMove, RowInv, WorkerInv;
    WorkerMoveIsSafe(s.row, s.clock, owner, WorkerOf(s, owner), action);
    var (row', w') := WorkerMove(s.row, s.clock, owner, WorkerOf(s, owner), action).value;
    assert s'.workers == s.workers[owner := w'] && s'.row == row';
  }

  lemma StepKeepsSafe(s: Sys, step: Step, s': Sys)
    requires Safe(s) && Apply(s, step) == Some(s')
    ensures Safe(s') && RowStep(s.row, s'.row)
  {
    hide WorkerMove, ReconcilerMove;
    match step
    case Tick(_) =>
    case Expire => assert s.row.ops[0] in s.row.ops;
    case Work(owner, action) => WorkKeepsSafe(s, owner, action, s');
    case Reconcile(rid, inspection) => ReconcilerMoveIsSafe(s.row, s.clock, ReconcilerOf(s, rid), inspection);
  }

  lemma {:induction false} RunKeepsSafe(s: Sys, steps: seq<Step>, s': Sys)
    requires Safe(s) && Run(s, steps) == Some(s')
    ensures Safe(s') && RowStep(s.row, s'.row)
  {
    if steps != [] {
      var middle := Run(s, steps[..|steps| - 1]).value;
      RunKeepsSafe(s, steps[..|steps| - 1], middle);
      StepKeepsSafe(middle, steps[|steps| - 1], s');
    }
  }

  /** No hidden partial write, and a persisted success never changes, in every run of the protocol. */
  lemma NoRunHidesAPartialWrite(start: Sys, before: seq<Step>, s: Sys, after: seq<Step>, s': Sys)
    requires Init(start) && Run(start, before) == Some(s) && Run(s, after) == Some(s')
    ensures NoHiddenPartialWrite(s.row)
    ensures |s'.row.ops| == |s.row.ops|
    ensures forall i | 0 <= i < |s.row.ops| && IsSuccess(s.row.ops[i].status) :: s'.row.ops[i] == s.row.ops[i]
    ensures IsSuccess(s.row.status) ==> IsSuccess(s'.row.status)
  {
    hide Run, Init, Apply, RowInv, WorkerInv, ReconcilerInv;
    InitIsSafe(start);
    RunKeepsSafe(start, before, s);
    RunKeepsSafe(s, after, s');
    SuccessStays(s.row, s'.row);
  }

  lemma SuccessStays(row: PlanRow, row': PlanRow)
    requires RowInv(row) && RowInv(row') && RowStep(row, row')
    ensures NoHiddenPartialWrite(row) && (IsSuccess(row.status) ==> IsSuccess(row'.status))
  {
    if IsSuccess(row.status) {
      forall op | op in row'.ops ensures IsSuccess(op.status) {
        var k :| 0 <= k < |row'.ops| && row'.ops[k] == op;
        assert row.ops[k] in row.ops;
      }
    }
  }

  /** Of all the confirm and resume calls of a run, at most one claims the plan while it is ISSUED. */
  lemma OneWinner(start: Sys, steps: seq<Step>, s: Sys)
    requires Init(start) && Run(start, steps) == Some(s)
    ensures |s.winners| <= 1
  {
    InitIsSafe(start);
    RunKeepsSafe(start, steps, s);
  }

  // ---- Fencing --------------------------------------------------------------

  /** The owner token has been used, and its lease expired, was cleared, or was replaced. */
  predicate Fenced(s: Sys, owner: Token) {
    && owner in s.workers && !BeforeClaim(s.workers[owner])
    && (s.row.leaseOwner == Some(owner) ==> !LeaseLive(s.row, s.clock))
  }

  lemma StepKeepsFenced(s: Sys, step: Step, s': Sys, owner: Token)
    requires Fenced(s, owner) && Apply(s, step) == Some(s')
    ensures Fenced(s', owner)
  {
  }

  lemma {:induction false} RunKeepsFenced(s: Sys, steps: seq<Step>, s': Sys, owner: Token)
    requires Fenced(s, owner) && Run(s, steps) == Some(s')
    ensures Fenced(s', owner)
  {
    if steps != [] {
      var middle := Run(s, steps[..|steps| - 1]).value;
      RunKeepsFenced(s, steps[..|steps| - 1], middle, owner);
      StepKeepsFenced(middle, steps[|steps| - 1], s', owner);
    }
  }

  /** Fencing is permanent: after any run, nothing that carries the old owner token commits,
      whatever operation, attempt token, receipt or lease length it names. */
  lemma FencingIsPermanent(s: Sys, steps: seq<Step>, s': Sys, owner: Token)
    requires Fenced(s, owner) && Run(s, steps) == Some(s')
    ensures forall i: nat, token: Token, seconds: int ::
              ClaimOperation(s'.row, i, Some(owner), token, s'.clock, seconds).Failure?
    ensures forall i: nat, receipt: Receipt, token: Option<Token> ::
              RecordReceipt(s'.row, i, receipt, Some(owner), token, s'.clock).Failure?
  {
    RunKeepsFenced(s, steps, s', owner);
  }

  /** An accepted receipt names the latest attempt and its token, under the owner's live lease;
      and it is the only row that the transaction changes. */
  lemma AcceptedReceiptIsFenced(
    row: PlanRow, i: nat, receipt: Receipt, owner: Token, token: Token, now: int)
    requires RecordReceipt(row, i, receipt, Some(owner), Some(token), now).Success?
    ensures i < |row.ops| && row.ops[i].status == Executing
    ensures row.ops[i].attempt == receipt.attempt && row.ops[i].attemptToken == Some(token)
    ensures row.leaseOwner == Some(owner) && LeaseLive(row, now)
    ensures var row' := RecordReceipt(row, i, receipt, Some(owner), Some(token), now).value;
            && row'.ops[i].receipt == Some(receipt) && row'.ops[i].status == receipt.status
            && forall k | 0 <= k < |row.ops| && k != i :: row'.ops[k] == row.ops[k]
  {
  }
}
