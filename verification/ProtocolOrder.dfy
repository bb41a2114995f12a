/** In-order execution, on every run in which a resume call that is past its guard claims the plan
    only when nothing is on offer behind unfinished work; and exactly there. */
module ProtocolOrder {
  import opened Wrappers
  import opened WritePlans
  import opened PlanRows
  import opened WriteProtocol
  import opened ProtocolSafety
  import opened ProtocolCoherence
  import opened CoherentSteps

  /** Nothing was dispatched before everything in front of it had succeeded. */
  ghost predicate InOrder(ops: seq<OpRow>) {
    forall i, j | 0 <= i < j < |ops| && ops[j].attempt > 0 :: IsSuccess(ops[i].status)
  }

  /** From `next` on, what is left to dispatch comes before everything that is in the way of it. */
  ghost predicate ViewIsOrderly(claimable: PlanStatus, snapshot: seq<PlanStatus>, next: nat, ops: seq<OpRow>) {
    && |snapshot| == |ops| && next <= |ops|
    && (forall i | next <= i < |ops| :: ops[i].status == snapshot[i])
    && (forall i, k | 0 <= i < k < |ops| && next <= k && snapshot[k] == claimable ::
          IsSuccess(ops[i].status) || (next <= i && snapshot[i] == claimable))
  }

  /** The same once the operation at `next` is out of the way. */
  ghost predicate RestIsOrderly(claimable: PlanStatus, snapshot: seq<PlanStatus>, next: nat, ops: seq<OpRow>) {
    && |snapshot| == |ops| && next < |ops|
    && (forall i | next < i < |ops| :: ops[i].status == snapshot[i])
    && (forall i, k | 0 <= i < k < |ops| && next < k && i != next && snapshot[k] == claimable ::
          IsSuccess(ops[i].status) || (next < i && snapshot[i] == claimable))
  }

  ghost predicate HolderIsOrderly(w: Worker, ops: seq<OpRow>) {
    && (w.Claimed? ==>
          forall i, k | 0 <= i < k < |ops| && ops[k].status == w.claimable ::
            IsSuccess(ops[i].status) || ops[i].status == w.claimable)
    && (w.Looping? ==> ViewIsOrderly(w.claimable, w.snapshot, w.next, ops))
    && (w.Dispatching? || w.Calling? || w.Returned? ==> RestIsOrderly(w.claimable, w.snapshot, w.next, ops))
  }

  /** What was called was claimed before. */
  ghost predicate CalledIsClaimed(workers: map<Token, Worker>, calls: seq<nat>, ops: seq<OpRow>) {
    && |calls| == |ops|
    && (forall i | 0 <= i < |ops| && calls[i] > 0 :: ops[i].attempt > 0)
    && (forall o | o in workers && workers[o].Dispatching? ::
          workers[o].next < |ops| && ops[workers[o].next].attempt > 0)
  }

  ghost predicate Ordered(s: Sys) {
    && Coherent(s)
    && InOrder(s.row.ops)
    && (Holder(s).Some? && LeaseLive(s.row, s.clock) ==> HolderIsOrderly(Holder(s).value, s.row.ops))
    && CalledIsClaimed(s.workers, s.calls, s.row.ops)
  }

  // ---- One step at a time ----------------------------------------------------

  /** An unfinished operation may change as long as it was not the one that others waited for. */
  lemma ChangeKeepsInOrder(ops: seq<OpRow>, i: nat, op: OpRow)
    requires InOrder(ops) && i < |ops| && !IsSuccess(ops[i].status)
    requires op.attempt > ops[i].attempt ==> forall k | 0 <= k < i :: IsSuccess(ops[k].status)
    ensures InOrder(ops[i := op])
  {
    var ops' := ops[i := op];
    forall a, b | 0 <= a < b < |ops'| && ops'[b].attempt > 0 ensures IsSuccess(ops'[a].status) {
      if b != i { assert ops[b].attempt > 0; }
    }
  }

  lemma ClaimKeepsOrder(row: PlanRow, owner: Token, w: Worker, token: Token, now: int, seconds: int)
    requires RowInv(row) && InOrder(row.ops) && w.Looping? && HolderIsOrderly(w, row.ops)
    requires w.next < |w.snapshot| && w.snapshot[w.next] == w.claimable
    requires ClaimOperation(row, w.next, Some(owner), token, now, seconds).Success?
    ensures var row' := ClaimOperation(row, w.next, Some(owner), token, now, seconds).value;
            InOrder(row'.ops) && RestIsOrderly(w.claimable, w.snapshot, w.next, row'.ops)
  {
    var row' := ClaimOperation(row, w.next, Some(owner), token, now, seconds).value;
    ClaimChange(row, w.next, owner, token, now, seconds);
    hide ClaimOperation, RowInv;
    ChangeKeepsInOrder(row.ops, w.next, row'.ops[w.next]);
  }

  lemma ReceiptKeepsOrder(row: PlanRow, w: Worker, owner: Token, now: int)
    requires RowInv(row) && InOrder(row.ops) && w.Returned? && AdapterResult(w.result) && HolderIsOrderly(w, row.ops)
    requires row.leaseOwner == Some(owner)
    requires RecordReceipt(row, w.next, ReceiptOf(w), Some(owner), Some(w.token), now).Success?
    ensures var row' := RecordReceipt(row, w.next, ReceiptOf(w), Some(owner), Some(w.token), now).value;
            && InOrder(row'.ops)
            && (IsSuccess(w.result) ==> ViewIsOrderly(w.claimable, w.snapshot, w.next + 1, row'.ops))
  {
    var row' := RecordReceipt(row, w.next, ReceiptOf(w), Some(owner), Some(w.token), now).value;
    ReceiptChange(row, w, owner, now);
    hide RecordReceipt, RowInv;
    ChangeKeepsInOrder(row.ops, w.next, row'.ops[w.next]);
  }

  lemma FrontierIsFirst(ops: seq<OpRow>, k: nat)
    requires k < |ops| && !IsSuccess(ops[k].status)
    ensures Frontier(ops) <= k
  {
  }

  lemma ClaimPlanIsOrderly(row: PlanRow, now: int, owner: Token, seconds: int, resume: bool)
    requires RowInv(row) && ClaimPlan(row, owner, now, seconds, resume).1
    requires resume ==> OrderlyClaim(row) && NoneIssued(row.ops)
    ensures HolderIsOrderly(Claimed(if resume then RetryableNotApplied else Issued), row.ops)
  {
    hide NoHiddenPartialWrite, LeaseLive;
    if !resume {
      forall i | 0 <= i < |row.ops| ensures row.ops[i].status == Issued { AllIssuedAt(row, i); }
    } else if ResumeGuard(row) {
      forall i | 0 <= i < |row.ops| ensures IsSuccess(row.ops[i].status) || row.ops[i].status == RetryableNotApplied {
        assert row.ops[i] in row.ops;
      }
    } else {
      forall i, k | 0 <= i < k < |row.ops| && row.ops[k].status == RetryableNotApplied
        ensures IsSuccess(row.ops[i].status)
      {
        if !IsSuccess(row.ops[i].status) { FrontierIsFirst(row.ops, i); }
      }
    }
  }

  lemma LocalMoveIsOrderly(row: PlanRow, clock: int, owner: Token, w: Option<Worker>, action: Action)
    requires IsLocal(action) && WorkerMove(row, clock, owner, w, action).Some?
    requires w.Some? ==> HolderIsOrderly(w.value, row.ops)
    ensures var (row', w') := WorkerMove(row, clock, owner, w, action).value;
            row' == row && (w.Some? ==> HolderIsOrderly(w', row.ops))
  {
    hide ClaimPlan, ClaimOperation, RecordReceipt, GuardOver;
  }

  lemma LocalMoveKeepsRow(row: PlanRow, clock: int, owner: Token, w: Option<Worker>, action: Action)
    requires IsLocal(action) && WorkerMove(row, clock, owner, w, action).Some?
    ensures WorkerMove(row, clock, owner, w, action).value.0 == row
  {
    hide ClaimPlan, ClaimOperation, RecordReceipt, GuardOver;
  }

  lemma WorkerMoveIsOrderly(
    row: PlanRow, holder: Option<Worker>, clock: int, owner: Token, w: Option<Worker>, action: Action)
    requires RowInv(row) && InOrder(row.ops)
    requires w.Some? ==> WorkerInv(w.value) && WorkerFits(w.value, row, holder)
    requires row.leaseOwner == Some(owner) ==> w.Some?
    requires row.leaseOwner == Some(owner) && LeaseLive(row, clock) ==> HolderIsOrderly(w.value, row.ops)
    requires action.ResumeClaim? ==> OrderlyClaim(row) || action.now + action.seconds <= clock
    requires WorkerMove(row, clock, owner, w, action).Some?
    ensures var (row', w') := WorkerMove(row, clock, owner, w, action).value;
            && InOrder(row'.ops)
            && (row'.leaseOwner == Some(owner) && LeaseLive(row', clock) ==> HolderIsOrderly(w', row'.ops))
  {
    hide InOrder, RowInv, OrderlyClaim, PersistedAggregate, CanTransition, ViewIsOrderly, RestIsOrderly,
         ConfirmIsOver;
    match action
    case ConfirmClaim(now, seconds) => ClaimPlanIsOrderly(row, now, owner, seconds, false);
    case ResumeClaim(now, seconds) => if now + seconds > clock { ClaimPlanIsOrderly(row, now, owner, seconds, true); }
    case ClaimOp(token, seconds) => ClaimKeepsOrder(row, owner, w.value, token, clock, seconds);
    case Record => ReceiptKeepsOrder(row, w.value, owner, clock);
    case _ =>
      LocalMoveKeepsRow(row, clock, owner, w, action);
      if row.leaseOwner == Some(owner) && LeaseLive(row, clock) { LocalMoveIsOrderly(row, clock, owner, w, action); }
  }

  lemma CalledAfterMove(
    row: PlanRow, clock: int, owner: Token, workers: map<Token, Worker>, action: Action, calls: seq<nat>)
    requires CalledIsClaimed(workers, calls, row.ops)
    requires WorkerMove(row, clock, owner, if owner in workers then Some(workers[owner]) else None, action).Some?
    ensures var (row', w') :=
              WorkerMove(row, clock, owner, if owner in workers then Some(workers[owner]) else None, action).value;
            CalledIsClaimed(workers[owner := w'], if action.CallAdapter? then CountCall(calls, w') else calls, row'.ops)
  {
    hide PersistedAggregate, CanTransition, ReceiptFenced, WithOpStatus, LeaseLive, GuardOver;
  }

  lemma WorkKeepsOrdered(s: Sys, owner: Token, action: Action, s': Sys)
    requires Ordered(s) && ClaimIsOrderly(s, Work(owner, action)) && Apply(s, Work(owner, action)) == Some(s')
    ensures Ordered(s')
  {
    hide Apply, WorkerMove, InOrder, HolderIsOrderly, CalledIsClaimed, CountCall, RowInv, RowFits, WorkerFits,
         HolderFits, ReconcilerFits, OrderlyClaim;
    WorkEffect(s, owner, action, s');
    WorkKeepsCoherent(s, owner, action, s');
    WorkerMoveIsOrderly(s.row, Holder(s), s.clock, owner, WorkerOf(s, owner), action);
    CalledAfterMove(s.row, s.clock, owner, s.workers, action, s.calls);
    WorkerMoveIsSafe(s.row, s.clock, owner, WorkerOf(s, owner), action);
    LeaseMoves(s.row, owner, WorkerOf(s, owner), s'.row, s'.workers[owner]);
    OpsWithoutLease(s.row, s.clock, owner, WorkerOf(s, owner), action);
    LeaseOfOthers(s.row, s.clock, owner, WorkerOf(s, owner), action);
  }

  /** Nobody renews the lease of another call. */
  lemma LeaseOfOthers(row: PlanRow, clock: int, owner: Token, w: Option<Worker>, action: Action)
    requires WorkerMove(row, clock, owner, w, action).Some?
    ensures var row' := WorkerMove(row, clock, owner, w, action).value.0;
            row'.leaseOwner.Some? && row'.leaseOwner != Some(owner) ==> row'.leaseExpires == row.leaseExpires
  {
    hide PersistedAggregate, CanTransition, GuardOver;
  }

  lemma ReconcilerMoveKeepsOrder(row: PlanRow, clock: int, r: Option<Reconciler>, inspection: Inspection)
    requires InOrder(row.ops) && (r.Some? ==> SnapshotFits(r.value, row.ops))
    requires ReconcilerMove(row, clock, r, inspection).Some?
    ensures InOrder(ReconcilerMove(row, clock, r, inspection).value.0.ops)
    ensures inspection.RecordVerdict? ==> row.leaseOwner == None
    ensures var row' := ReconcilerMove(row, clock, r, inspection).value.0;
            row'.leaseOwner == None || (row'.leaseOwner == row.leaseOwner && row'.leaseExpires == row.leaseExpires)
    ensures !inspection.RecordVerdict? ==> ReconcilerMove(row, clock, r, inspection).value.0.ops == row.ops
  {
    hide PersistedAggregate, InOrder;
    if inspection.RecordVerdict? {
      var next := r.value.next;
      ChangeKeepsInOrder(row.ops, next, ReconcilerMove(row, clock, r, inspection).value.0.ops[next]);
    }
  }

  lemma SameAttemptsKeepCalled(workers: map<Token, Worker>, calls: seq<nat>, ops: seq<OpRow>, ops': seq<OpRow>)
    requires CalledIsClaimed(workers, calls, ops) && |ops'| == |ops|
    requires forall i | 0 <= i < |ops| :: ops'[i].attempt == ops[i].attempt
    ensures CalledIsClaimed(workers, calls, ops')
  {
  }

  lemma ReconcileKeepsOrdered(s: Sys, rid: nat, inspection: Inspection, s': Sys)
    requires Ordered(s) && Apply(s, Reconcile(rid, inspection)) == Some(s')
    ensures Ordered(s')
  {
    hide Apply, ReconcilerMove, InOrder, HolderIsOrderly, CalledIsClaimed, RowInv, RowFits, WorkerFits, HolderFits,
         SnapshotFits, ScanFits, ConfirmIsOver, WorkerMove;
    ReconcileEffect(s, rid, inspection, s');
    ReconcileKeepsCoherent(s, rid, inspection, s');
    ReconcilerMoveKeepsOrder(s.row, s.clock, ReconcilerOf(s, rid), inspection);
    AttemptsStay(s.row, s.clock, ReconcilerOf(s, rid), inspection);
    SameAttemptsKeepCalled(s.workers, s.calls, s.row.ops, s'.row.ops);
  }

  lemma AttemptsStay(row: PlanRow, clock: int, r: Option<Reconciler>, inspection: Inspection)
    requires ReconcilerMove(row, clock, r, inspection).Some?
    ensures var row' := ReconcilerMove(row, clock, r, inspection).value.0;
            |row'.ops| == |row.ops| && forall i | 0 <= i < |row.ops| :: row'.ops[i].attempt == row.ops[i].attempt
  {
    hide PersistedAggregate;
  }

  lemma StepKeepsOrdered(s: Sys, step: Step, s': Sys)
    requires Ordered(s) && ClaimIsOrderly(s, step) && Apply(s, step) == Some(s')
    ensures Ordered(s')
  {
    hide WorkerMove, ReconcilerMove, RowFits, HolderFits, WorkerFits, ReconcilerFits, RowInv, OrderlyClaim, InOrder,
         HolderIsOrderly;
    match step
    case Tick(_) =>
    case Expire => ExpireKeepsCoherent(s, s');
    case Work(owner, action) => WorkKeepsOrdered(s, owner, action, s');
    case Reconcile(rid, inspection) => ReconcileKeepsOrdered(s, rid, inspection, s');
  }

  lemma {:induction false} RunKeepsOrdered(s: Sys, steps: seq<Step>, s': Sys)
    requires Ordered(s) && ClaimsOrderly(s, steps) && Run(s, steps) == Some(s')
    ensures Ordered(s')
  {
    if steps != [] {
      hide Apply, Ordered, ClaimIsOrderly;
      var middle := Run(s, steps[..|steps| - 1]).value;
      RunKeepsOrdered(s, steps[..|steps| - 1], middle);
      StepKeepsOrdered(middle, steps[|steps| - 1], s');
    }
  }

  lemma InitIsOrdered(s: Sys)
    requires Init(s)
    ensures Ordered(s)
  {
    InitIsCoherent(s);
    forall i | 0 <= i < |s.row.ops| ensures s.row.ops[i] in s.row.ops && s.calls[i] in s.calls {}
  }

  // ---- The guarantees ---------------------------------------------------------

  /** A prefix of successes, at most one dispatched operation without success, then only
      operations that were never dispatched. */
  lemma InOrderExecution(start: Sys, steps: seq<Step>, s: Sys)
    requires Init(start) && ClaimsOrderly(start, steps) && Run(start, steps) == Some(s)
    ensures |s.calls| == |s.row.ops|
    ensures forall i | Frontier(s.row.ops) < i < |s.row.ops| :: s.row.ops[i].attempt == 0 && s.calls[i] == 0
  {
    InitIsOrdered(start);
    RunKeepsOrdered(start, steps, s);
  }

  /** An operation is dispatched only after everything it depends on has a stored success receipt. */
  lemma DependenciesComeFirst(start: Sys, steps: seq<Step>, s: Sys, plan: seq<OperationPlan>, j: nat, d: string)
    requires Init(start) && ClaimsOrderly(start, steps) && Run(start, steps) == Some(s)
    requires WellOrdered(plan) && |plan| == |start.row.ops|
    requires forall i | 0 <= i < |plan| ::
               && start.row.ops[i].payload.operationId == plan[i].operationId
               && start.row.ops[i].payload.dependsOn == plan[i].dependsOn
    requires j < |s.row.ops| && s.row.ops[j].attempt > 0 && d in s.row.ops[j].payload.dependsOn
    ensures exists i | 0 <= i < j ::
              && s.row.ops[i].payload.operationId == d
              && IsSuccess(s.row.ops[i].status)
              && s.row.ops[i].receipt.Some? && s.row.ops[i].receipt.value.status == s.row.ops[i].status
  {
    InitIsOrdered(start);
    InitIsSafe(start);
    RunKeepsOrdered(start, steps, s);
    RunKeepsSafe(start, steps, s);
    hide Coherent, CalledIsClaimed, HolderIsOrderly, Run, ClaimsOrderly;
    assert d in plan[j].dependsOn;
    var i :| 0 <= i < j && plan[i].operationId == d;
    assert s.row.ops[i] in s.row.ops && s.row.ops[i].payload == start.row.ops[i].payload;
  }
}
