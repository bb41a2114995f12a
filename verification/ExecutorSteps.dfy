/** What an executor or a reconciler that nobody disturbs finds at its next step. */
module ExecutorSteps {
  import opened Wrappers
  import opened WritePlans
  import opened PlanRows
  import opened WriteProtocol
  import opened ProtocolSafety
  import opened ProtocolTheorems

  /** A step that the call holding `owner` takes once it has claimed the plan. */
  predicate IsStepOf(step: Step, owner: Token, seconds: int) {
    && step.Work? && step.owner == owner && !step.action.ConfirmClaim? && !step.action.ResumeClaim?
    && (step.action.ClaimOp? ==> step.action.seconds == seconds)
  }

  ghost predicate Worked(before: seq<Step>, after: seq<Step>, owner: Token, seconds: int) {
    before <= after && forall k | |before| <= k < |after| :: IsStepOf(after[k], owner, seconds)
  }

  /** What the adapters answered, in the order of their calls. */
  function Answers(steps: seq<Step>): seq<ApplyStatus> {
    if steps == [] then []
    else
      var last := steps[|steps| - 1];
      Answers(steps[..|steps| - 1])
      + if last.Work? && last.action.AdapterReturns? then [last.action.result] else []
  }

  lemma OneMoreStep(steps: seq<Step>, step: Step)
    ensures Answers(steps + [step])
            == Answers(steps) + if step.Work? && step.action.AdapterReturns? then [step.action.result] else []
    ensures Rulings(steps + [step])
            == Rulings(steps) + if step.Reconcile? && step.inspection.RecordVerdict? then 1 else 0
  {
    assert (steps + [step])[..|steps|] == steps;
  }

  /** How many verdicts were written. */
  function Rulings(steps: seq<Step>): nat {
    if steps == [] then 0
    else
      var last := steps[|steps| - 1];
      Rulings(steps[..|steps| - 1]) + if last.Reconcile? && last.inspection.RecordVerdict? then 1 else 0
  }

  /** The call took this step after the first `from` steps of the run, and found these operations. */
  ghost predicate ReadBy(start: Sys, trace: seq<Step>, from: nat, step: Step, ops: seq<OpRow>) {
    exists k: nat :: from <= k < |trace| && trace[k] == step && RowsAt(start, trace, k) == Some(ops)
  }

  ghost function RowsAt(start: Sys, trace: seq<Step>, k: nat): Option<seq<OpRow>>
    requires k <= |trace|
  {
    var s := Run(start, trace[..k]);
    if s.Some? then Some(s.value.row.ops) else None
  }

  lemma StepReads(start: Sys, trace: seq<Step>, step: Step, ops: seq<OpRow>)
    requires |trace| > 0 && trace[|trace| - 1] == step && RowsAt(start, trace, |trace| - 1) == Some(ops)
    ensures forall from: nat :: from < |trace| ==> ReadBy(start, trace, from, step, ops)
  {
  }

  lemma ReadStays(
    start: Sys, before: seq<Step>, after: seq<Step>, from: nat, earlier: nat, step: Step, ops: seq<OpRow>)
    requires before <= after && ReadBy(start, before, from, step, ops) && earlier <= from
    ensures ReadBy(start, after, earlier, step, ops)
  {
    hide Run;
    var k: nat :| from <= k < |before| && before[k] == step && RowsAt(start, before, k) == Some(ops);
    assert after[..k] == before[..k];
  }

  lemma {:induction false} RunContinues(start: Sys, steps: seq<Step>, k: nat)
    requires k <= |steps| && Run(start, steps).Some?
    ensures Run(start, steps[..k]).Some? && Run(Run(start, steps[..k]).value, steps[k..]) == Run(start, steps)
  {
    if k == |steps| {
      assert steps[..k] == steps && steps[k..] == [];
    } else {
      var before := steps[..|steps| - 1];
      RunContinues(start, before, k);
      assert before[..k] == steps[..k];
      assert steps[k..][..|steps| - k - 1] == before[k..];
    }
  }

  /** What was read later shows every operation and every success that was there earlier. */
  lemma ReadLater(start: Sys, trace: seq<Step>, k: nat, ops: seq<OpRow>, step: Step, ops': seq<OpRow>)
    requires Init(start) && Run(start, trace).Some?
    requires k <= |trace| && RowsAt(start, trace, k) == Some(ops) && ReadBy(start, trace, k, step, ops')
    ensures |ops'| == |ops| && forall i | 0 <= i < |ops| && IsSuccess(ops[i].status) :: ops'[i] == ops[i]
  {
    var l: nat :| k <= l < |trace| && trace[l] == step && RowsAt(start, trace, l) == Some(ops');
    RunContinues(start, trace, l);
    RunContinues(start, trace[..l], k);
    assert trace[..l][..k] == trace[..k];
    hide Run, Init;
    NoRunHidesAPartialWrite(start, trace[..k], Run(start, trace[..k]).value, trace[..l][k..],
                            Run(start, trace[..l]).value);
  }

  /** The store refuses what the call would do next: to claim its operation, or to record its receipt. */
  predicate CannotGoOn(s: Sys, owner: Token, token: Token, seconds: int) {
    var w := WorkerOf(s, owner);
    || (w.Some? && w.value.Looping? && w.value.next < |w.value.snapshot|
        && w.value.snapshot[w.value.next] == w.value.claimable
        && ClaimOperation(s.row, w.value.next, Some(owner), token, s.clock, seconds).Failure?)
    || (w.Some? && w.value.Returned?
        && RecordReceipt(s.row, w.value.next, ReceiptOf(w.value), Some(owner), Some(w.value.token), s.clock).Failure?)
  }

  /** The last step of the run is that the call gave up, and it could not have gone on. */
  ghost predicate Denied(start: Sys, trace: seq<Step>, owner: Token, seconds: int) {
    && |trace| > 0 && trace[|trace| - 1] == Work(owner, Stop)
    && var s := Run(start, trace[..|trace| - 1]);
       s.Some? && exists token :: CannotGoOn(s.value, owner, token, seconds)
  }

  lemma DeniedNow(start: Sys, trace: seq<Step>, s: Sys, owner: Token, token: Token, seconds: int)
    requires Run(start, trace) == Some(s) && CannotGoOn(s, owner, token, seconds)
    ensures Denied(start, trace + [Work(owner, Stop)], owner, seconds)
  {
    hide CannotGoOn, Run;
    assert (trace + [Work(owner, Stop)])[..|trace|] == trace;
  }

  predicate HoldsLive(s: Sys, owner: Token) {
    s.row.leaseOwner == Some(owner) && LeaseLive(s.row, s.clock)
  }

  /** From i on the operations are as in the snapshot, and while something is left to dispatch the call
      that holds `owner` has the lease. */
  ghost predicate InView(s: Sys, owner: Token, claimable: PlanStatus, snapshot: seq<PlanStatus>, i: nat) {
    && claimable in {Issued, RetryableNotApplied} && |snapshot| == |s.row.ops|
    && (forall j: nat | i <= j < |snapshot| :: s.row.ops[j].status == snapshot[j])
    && ((exists j: nat :: i <= j < |snapshot| && snapshot[j] == claimable) ==> HoldsLive(s, owner))
  }

  /** The same while operation i is being dispatched. */
  ghost predicate InCall(s: Sys, owner: Token, snapshot: seq<PlanStatus>, i: nat) {
    && i < |snapshot| == |s.row.ops| && HoldsLive(s, owner) && s.row.ops[i].status == Executing
    && forall j: nat | i < j < |snapshot| :: s.row.ops[j].status == snapshot[j]
  }

  /** An operation waits for one of the two receipts that the store refuses although they are fenced. */
  ghost predicate Refuses(row: PlanRow, claimable: PlanStatus) {
    exists w: Worker ::
      && w.Returned? && w.claimable == claimable && w.next < |row.ops| && row.ops[w.next].status == Executing
      && (CompletesAlreadyApplied(row, w) || RejectsResumedPlan(row, w))
  }

  lemma ClaimIsPossible(
    s: Sys, owner: Token, claimable: PlanStatus, snapshot: seq<PlanStatus>, i: nat, token: Token, seconds: int)
    requires InView(s, owner, claimable, snapshot, i) && i < |snapshot| && snapshot[i] == claimable
    ensures ClaimOperation(s.row, i, Some(owner), token, s.clock, seconds).Success?
  {
  }

  lemma SkipKeepsView(s: Sys, s': Sys, owner: Token, claimable: PlanStatus, snapshot: seq<PlanStatus>, i: nat)
    requires InView(s, owner, claimable, snapshot, i) && s'.row == s.row && s'.clock == s.clock
    ensures InView(s', owner, claimable, snapshot, i + 1)
  {
  }

  lemma ClaimStartsCall(
    s: Sys, s': Sys, owner: Token, claimable: PlanStatus, snapshot: seq<PlanStatus>, i: nat, token: Token, seconds: int)
    requires InView(s, owner, claimable, snapshot, i) && i < |snapshot| && seconds > 0
    requires WorkerOf(s, owner) == Some(Looping(claimable, snapshot, i))
    requires Apply(s, Work(owner, ClaimOp(token, seconds))) == Some(s')
    ensures InCall(s', owner, snapshot, i)
  {
    hide ReconcilerMove;
  }

  lemma CallStays(s: Sys, s': Sys, owner: Token, action: Action, snapshot: seq<PlanStatus>, i: nat)
    requires InCall(s, owner, snapshot, i) && (action.CallAdapter? || action.AdapterReturns?)
    requires Apply(s, Work(owner, action)) == Some(s')
    ensures InCall(s', owner, snapshot, i)
  {
    hide ReconcilerMove;
  }

  lemma ReceiptKeepsView(s: Sys, s': Sys, owner: Token, snapshot: seq<PlanStatus>, w: Worker)
    requires w.Returned? && WorkerOf(s, owner) == Some(w) && InCall(s, owner, snapshot, w.next) && IsSuccess(w.result)
    requires w.claimable in {Issued, RetryableNotApplied}
    requires Apply(s, Work(owner, Record)) == Some(s')
    ensures InView(s', owner, w.claimable, snapshot, w.next + 1)
  {
    var i := w.next;
    RecordSucceeds(s, owner, s');
    var statuses := WithOpStatus(s.row, i, w.result);
    hide ReconcilerMove, WorkerMove, PersistedAggregate, Apply;
    if j: nat :| i + 1 <= j < |snapshot| && snapshot[j] == w.claimable {
      assert statuses[i] in statuses && statuses[j] in statuses;
      AggregateHidesNoSuccess(statuses);
    }
  }

  /** What one undisturbed round of the executor's loop does to the operations. */
  ghost predicate RoundDone(
    s: Sys, s': Sys, owner: Token, claimable: PlanStatus, snapshot: seq<PlanStatus>, i: nat, result: ApplyStatus)
  {
    && Wrote(s.row.ops, s'.row.ops, i, result)
    && (IsSuccess(result) ==> InView(s', owner, claimable, snapshot, i + 1))
  }

  /** Operation i has this status now, and no other operation was touched. */
  predicate Wrote(before: seq<OpRow>, after: seq<OpRow>, i: nat, status: PlanStatus) {
    && i < |before| == |after| && after[i].status == status
    && forall j: nat | j < |before| && j != i :: after[j] == before[j]
  }

  lemma CallTouchesOne(s: Sys, s': Sys, owner: Token, action: Action, w: Worker)
    requires WorkerOf(s, owner) == Some(w) && (w.Looping? || w.Dispatching? || w.Calling? || w.Returned?)
    requires action.ClaimOp? || action.CallAdapter? || action.AdapterReturns? || action.Record?
    requires Apply(s, Work(owner, action)) == Some(s') && w.next < |s.row.ops|
    ensures Wrote(s.row.ops, s'.row.ops, w.next, if action.Record? then w.result else s'.row.ops[w.next].status)
  {
    hide ReconcilerMove, PersistedAggregate, ReceiptFenced, CanTransition;
  }

  /** Operation i is being dispatched, and no other operation was touched. */
  ghost predicate CallDone(s: Sys, s': Sys, owner: Token, claimable: PlanStatus, snapshot: seq<PlanStatus>, i: nat) {
    && InCall(s', owner, snapshot, i) && claimable in {Issued, RetryableNotApplied}
    && i < |s'.row.ops| && Wrote(s.row.ops, s'.row.ops, i, s'.row.ops[i].status)
  }

  lemma CallIsDone(
    s: Sys, s1: Sys, s2: Sys, s3: Sys, owner: Token, claimable: PlanStatus, snapshot: seq<PlanStatus>, i: nat,
    token: Token, seconds: int, attempt: nat, result: ApplyStatus)
    requires InView(s, owner, claimable, snapshot, i) && i < |snapshot| && seconds > 0
    requires WorkerOf(s, owner) == Some(Looping(claimable, snapshot, i))
    requires WorkerOf(s1, owner) == Some(Dispatching(claimable, snapshot, i, token, attempt))
    requires WorkerOf(s2, owner) == Some(Calling(claimable, snapshot, i, token, attempt))
    requires Apply(s, Work(owner, ClaimOp(token, seconds))) == Some(s1)
    requires Apply(s1, Work(owner, CallAdapter)) == Some(s2)
    requires Apply(s2, Work(owner, AdapterReturns(result))) == Some(s3)
    ensures CallDone(s, s3, owner, claimable, snapshot, i)
  {
    hide Apply, InCall, InView;
    ClaimStartsCall(s, s1, owner, claimable, snapshot, i, token, seconds);
    CallStays(s1, s2, owner, CallAdapter, snapshot, i);
    CallStays(s2, s3, owner, AdapterReturns(result), snapshot, i);
    InViewLength(s, owner, claimable, snapshot, i);
    CallTouchesOne(s, s1, owner, ClaimOp(token, seconds), WorkerOf(s, owner).value);
    CallTouchesOne(s1, s2, owner, CallAdapter, WorkerOf(s1, owner).value);
    CallTouchesOne(s2, s3, owner, AdapterReturns(result), WorkerOf(s2, owner).value);
  }

  lemma ReceiptIsDone(
    s: Sys, s3: Sys, s4: Sys, owner: Token, claimable: PlanStatus, snapshot: seq<PlanStatus>, i: nat,
    token: Token, attempt: nat, result: ApplyStatus)
    requires CallDone(s, s3, owner, claimable, snapshot, i)
    requires WorkerOf(s3, owner) == Some(Returned(claimable, snapshot, i, token, attempt, result))
    requires Apply(s3, Work(owner, Record)) == Some(s4)
    ensures RoundDone(s, s4, owner, claimable, snapshot, i, result)
  {
    hide Apply, InCall, InView;
    CallTouchesOne(s3, s4, owner, Record, WorkerOf(s3, owner).value);
    if IsSuccess(result) {
      ReceiptKeepsView(s3, s4, owner, snapshot, WorkerOf(s3, owner).value);
    }
  }

  lemma InViewLength(s: Sys, owner: Token, claimable: PlanStatus, snapshot: seq<PlanStatus>, i: nat)
    requires InView(s, owner, claimable, snapshot, i)
    ensures |snapshot| == |s.row.ops| && claimable in {Issued, RetryableNotApplied}
  {
  }

  lemma ReadBringsView(s: Sys, s': Sys, owner: Token, claimable: PlanStatus, snapshot: seq<PlanStatus>)
    requires HoldsLive(s, owner) && claimable in {Issued, RetryableNotApplied}
    requires Apply(s, Work(owner, ReadRecord)) == Some(s') && snapshot == Statuses(s'.row.ops)
    ensures s'.row == s.row && InView(s', owner, claimable, snapshot, 0)
  {
    hide ReconcilerMove;
  }

  lemma RowIsKept(s: Sys, s': Sys, owner: Token, action: Action)
    requires action.Stop? || action.SkipOperation? || action.CheckGuard?
    requires Apply(s, Work(owner, action)) == Some(s')
    ensures s'.row == s.row && s'.clock == s.clock
  {
    hide ReconcilerMove;
  }

  /** A receipt under the live lease is refused for one of the two reasons only. */
  lemma RefusedForAReason(start: Sys, steps: seq<Step>, s: Sys, owner: Token, w: Worker)
    requires Init(start) && Run(start, steps) == Some(s) && WorkerOf(s, owner) == Some(w) && w.Returned?
    requires HoldsLive(s, owner) && w.next < |s.row.ops| && s.row.ops[w.next].status == Executing
    requires RecordReceipt(s.row, w.next, ReceiptOf(w), Some(owner), Some(w.token), s.clock).Failure?
    ensures Refuses(s.row, w.claimable)
  {
    RecordIsApplied(s, owner);
    hide Init, Run, Apply, RecordReceipt, CompletesAlreadyApplied, RejectsResumedPlan;
    FencedReceiptsRefusedExactly(start, steps, s, owner);
  }

  /** A plan that is ISSUED is untouched, and can be claimed. */
  lemma IssuedIsClaimable(start: Sys, steps: seq<Step>, s: Sys, owner: Token, now: int, seconds: int)
    requires Init(start) && Run(start, steps) == Some(s) && s.row.status == Issued
    ensures ClaimPlan(s.row, owner, now, seconds, false).1
    ensures TransitionPlan(s.row, Issued, Expired, now).Success?
  {
    InitIsSafe(start);
    RunKeepsSafe(start, steps, s);
  }

  lemma ClaimBringsView(s: Sys, s': Sys, owner: Token, now: int, seconds: int, resume: bool)
    requires now == s.clock && seconds > 0
    requires Apply(s, Work(owner, if resume then ResumeClaim(now, seconds) else ConfirmClaim(now, seconds))) == Some(s')
    ensures s'.row.ops == s.row.ops && s'.clock == s.clock && HoldsLive(s', owner)
  {
    hide ReconcilerMove;
  }

  lemma LeaseIsOfRunningPlan(start: Sys, steps: seq<Step>, s: Sys)
    requires Init(start) && Run(start, steps) == Some(s)
    ensures RowInv(s.row)
  {
    InitIsSafe(start);
    RunKeepsSafe(start, steps, s);
  }

  // ---- Reconciliation --------------------------------------------------------------------------------

  predicate NeedsRuling(row: OpRow) {
    row.status == Issued || Unresolved(row.status)
  }

  /** What an undisturbed reconciler finds: nobody holds the plan, and from i on the operations are as it read them. */
  predicate Unheld(s: Sys, rows: seq<OpRow>, i: nat) {
    s.row.leaseOwner == None && |s.row.ops| == |rows| && forall j: nat | i <= j < |rows| :: s.row.ops[j] == rows[j]
  }

  /** The statuses of the plans that `reconcile` rules on once it has fenced them. */
  predicate Reconciled(status: PlanStatus) {
    status == Executing || MayReconcile(status)
  }

  lemma FenceClears(s: Sys, s': Sys, rid: nat)
    requires Apply(s, Reconcile(rid, Fence)) == Some(s') && RowInv(s.row)
    ensures s'.row.ops == s.row.ops && s'.clock == s.clock
    ensures !LeaseLive(s.row, s.clock) && (Reconciled(s.row.status) <==> MayReconcile(s'.row.status))
    ensures !MayReconcile(s'.row.status) ==> s'.row == s.row
    ensures MayReconcile(s'.row.status) ==> s'.row.leaseOwner == None
  {
    hide WorkerMove, RecordMove;
  }

  /** These steps only read. */
  lemma InspectionKeepsRow(s: Sys, s': Sys, rid: nat, inspection: Inspection)
    requires inspection.CheckStatus? || inspection.ReadSnapshot? || inspection.SkipRow? || inspection.Observe?
    requires Apply(s, Reconcile(rid, inspection)) == Some(s')
    ensures s'.row == s.row && s'.clock == s.clock
  {
    hide WorkerMove, RecordMove;
  }

  lemma VerdictIsPossible(s: Sys, rows: seq<OpRow>, i: nat, receipt: Receipt)
    requires Unheld(s, rows, i) && i < |rows| && NeedsRuling(rows[i])
    ensures RecordReconciliation(s.row, i, receipt).Success?
  {
  }

  lemma VerdictKeepsUnheld(s: Sys, s': Sys, rid: nat, r: Reconciler, rows: seq<OpRow>, i: nat, verdict: ApplyStatus)
    requires Unheld(s, rows, i) && i < |rows| && ReconcilerOf(s, rid) == Some(r)
    requires r == Scanning(rows, i) ==> verdict == RetryableNotApplied
    requires r == Scanning(rows, i) || r == Observed(rows, i, verdict)
    requires Apply(s, Reconcile(rid, RecordVerdict)) == Some(s')
    ensures Unheld(s', rows, i + 1) && s'.row.ops[i].status == verdict
    ensures forall j: nat | j < |rows| && j != i :: s'.row.ops[j] == s.row.ops[j]
  {
    hide WorkerMove, PersistedAggregate;
  }
}
