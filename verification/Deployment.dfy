/** One stored plan and the transactions that a call runs on it, each against arbitrary interference:
    before each of them every other executor, reconciler and the clock may take any number of steps. */
module Deployments {
  import opened Wrappers
  import opened WritePlans
  import opened PlanRows
  import opened PlanStores
  import opened WriteProtocol
  import opened ExecutorSteps

  /** One plan in the shared store. The ghost fields say which run of the protocol led here, and which
      of its steps the caller at hand took itself. */
  class Deployment {
    const store: SQLitePlanStore
    const planId: string
    var clock: int
    var nextToken: Token
    ghost const start: Sys
    ghost var sys: Sys
    ghost var trace: seq<Step>
    ghost var own: seq<Step>

    /** A plan that was saved and not yet touched. */
    constructor (store: SQLitePlanStore, planId: string, clock: int, ghost start: Sys)
      requires planId in store.plans && store.plans[planId] == start.row && start.row.header.toolName != "legacy"
      requires Init(start) && clock == start.clock
      ensures Valid() && this.store == store && this.planId == planId && this.start == start
      ensures sys == start && trace == own == []
    {
      this.store, this.planId, this.clock, this.nextToken := store, planId, clock, 0;
      this.start, this.sys, this.trace, this.own := start, start, [], [];
    }

    ghost predicate Valid()
      reads this, store
    {
      && planId in store.plans && store.plans[planId] == sys.row
      && sys.row.header.toolName != "legacy"
      && |sys.row.ops| == |sys.calls|
      && clock == sys.clock
      && Init(start) && Run(start, trace) == Some(sys)
      && (forall t | t in sys.workers :: t < nextToken)
      && (forall r | r in sys.reconcilers :: r < nextToken)
    }

    /** How many steps of the run so far were taken by somebody else, or by the clock. */
    ghost function Others(): int
      reads this
    {
      |trace| - |own|
    }

    /** This caller took one step. Had nobody else acted meanwhile, it was the only change. */
    twostate predicate Did(step: Step)
      reads this
    {
      && own == old(own) + [step] && old(trace) <= trace && Others() >= old(Others()) && clock >= old(clock)
      && (Others() == old(Others()) ==> Apply(old(sys), step) == Some(sys))
    }

    /** This caller took no step. */
    twostate predicate Idle()
      reads this
    {
      && own == old(own) && old(trace) <= trace && Others() >= old(Others()) && clock >= old(clock)
      && (Others() == old(Others()) ==> sys == old(sys) && clock == old(clock))
    }

    /** Everybody else may act: all that is kept is the run so far and this call's own place in it. */
    method Interfere(ghost me: nat)
      requires Valid()
      modifies this, store
      ensures Valid() && Idle()
      ensures WorkerOf(sys, me) == old(WorkerOf(sys, me))
      ensures ReconcilerOf(sys, me) == old(ReconcilerOf(sys, me))
      ensures |sys.row.ops| == old(|sys.row.ops|) && sys.row.header == old(sys.row.header)
      ensures nextToken >= old(nextToken)
    {
    }

    method FindPlan() returns (plan: Option<WritePlan>)
      requires Valid()
      ensures plan == Rehydrate(sys.row) && plan.Some?
    {
      plan := store.GetPlan(planId);
    }

    method FindRecord() returns (record: Option<PlanRow>)
      requires Valid()
      ensures record == Some(sys.row)
    {
      record := store.GetPlanRecord(planId);
    }

    /** A uuid4 value: nobody has used it, and nobody else will. */
    method FreshToken() returns (t: Token)
      requires Valid()
      modifies this`nextToken
      ensures Valid() && t == old(nextToken) && nextToken == t + 1
      ensures WorkerOf(sys, t) == None && ReconcilerOf(sys, t) == None
      ensures forall owner, w :: old(At(owner, w)) ==> At(owner, w)
    {
      t := nextToken;
      nextToken := nextToken + 1;
    }

    /** The transaction that was just committed is this step of the run. */
    ghost method Take(step: Step)
      requires Run(start, trace) == Some(sys) && Apply(sys, step).Some?
      modifies this`sys, this`trace, this`own
      ensures Some(sys) == Apply(old(sys), step) && trace == old(trace) + [step] && own == old(own) + [step]
      ensures Run(start, trace) == Some(sys)
    {
      assert (trace + [step])[..|trace|] == trace;
      sys := Apply(sys, step).value;
      trace := trace + [step];
      own := own + [step];
    }

    /** Where the call that holds `owner` is. */
    ghost predicate At(owner: Token, w: Worker)
      reads this, store
    {
      Valid() && owner < nextToken && WorkerOf(sys, owner) == Some(w)
    }

    // ---- One transaction, or one adapter call, each; others act first -------

    method StopNow(owner: Token, ghost w: Worker)
      requires At(owner, w)
      modifies this`sys, this`trace, this`own
      ensures At(owner, Stopped) && Did(Work(owner, Stop)) && trace == old(trace) + [Work(owner, Stop)]
      ensures Some(sys) == Apply(old(sys), Work(owner, Stop))
    {
      Take(Work(owner, Stop));
    }

    method ExpireNow() returns (done: bool)
      requires Valid() && clock > sys.row.header.expiresAt
      modifies this`sys, this`trace, this`own, store
      ensures Valid() && clock == old(clock)
      ensures done == old(TransitionPlan(sys.row, Issued, Expired, clock).Success?)
      ensures if done then Did(Expire) else Idle() && sys == old(sys)
    {
      var r := store.TransitionPlan(planId, Issued, Expired, clock);
      done := r.Success?;
      if done { Take(Expire); }
    }

    method ClaimNow(owner: Token, seconds: int, resume: bool) returns (claimed: bool)
      requires Valid() && seconds > 0 && owner < nextToken
      requires if resume then At(owner, GuardPassed) else WorkerOf(sys, owner) == None
      modifies this, store
      ensures Valid()
      ensures claimed ==> At(owner, Claimed(if resume then RetryableNotApplied else Issued))
      ensures claimed ==>
                var now := old(clock);
                Did(Work(owner, if resume then ResumeClaim(now, seconds) else ConfirmClaim(now, seconds)))
      ensures !claimed ==> Idle() && !ClaimPlan(sys.row, owner, old(clock), seconds, resume).1
      ensures !claimed && resume ==> At(owner, GuardPassed)
    {
      hide Run, ReconcilerMove;
      var now := clock;
      Interfere(owner);
      var r := store.ClaimPlan(planId, owner, now, seconds, resume);
      claimed := r.Success? && r.value;
      if claimed {
        Take(Work(owner, if resume then ResumeClaim(now, seconds) else ConfirmClaim(now, seconds)));
      }
    }

    method ReadPlanNow(owner: Token) returns (plan: Option<WritePlan>)
      requires Valid() && owner < nextToken && WorkerOf(sys, owner) == None
      modifies this`sys, this`trace, this`own
      ensures plan.Some? && plan.value.status == sys.row.status && sys.row == old(sys.row)
      ensures At(owner, PlanRead(plan.value.status)) && Did(Work(owner, ReadPlan))
    {
      plan := store.GetPlan(planId);
      Take(Work(owner, ReadPlan));
    }

    method ReadForGuard(owner: Token, status: PlanStatus) returns (record: Option<PlanRow>)
      requires At(owner, PlanRead(status))
      modifies this, store
      ensures record == Some(sys.row)
      ensures if GuardOver(status, record.value.ops) then At(owner, GuardPassed) && Did(Work(owner, CheckGuard))
              else At(owner, PlanRead(status)) && Idle()
      ensures GuardOver(status, record.value.ops) ==>
                ReadBy(start, trace, |old(trace)|, Work(owner, CheckGuard), record.value.ops)
    {
      Interfere(owner);
      record := store.GetPlanRecord(planId);
      if GuardOver(status, record.value.ops) {
        Take(Work(owner, CheckGuard));
        StepReads(start, trace, Work(owner, CheckGuard), record.value.ops);
      }
    }

    method ReadStatuses(owner: Token, ghost claimable: PlanStatus) returns (snapshot: seq<PlanStatus>)
      requires At(owner, Claimed(claimable))
      modifies this, store
      ensures At(owner, Looping(claimable, snapshot, 0)) && Did(Work(owner, ReadRecord))
      ensures snapshot == Statuses(sys.row.ops)
      ensures ReadBy(start, trace, |old(trace)|, Work(owner, ReadRecord), sys.row.ops)
    {
      Interfere(owner);
      var record := store.GetPlanRecord(planId);
      snapshot := Statuses(record.value.ops);
      Take(Work(owner, ReadRecord));
      StepReads(start, trace, Work(owner, ReadRecord), record.value.ops);
    }

    method Skip(owner: Token, ghost claimable: PlanStatus, ghost snapshot: seq<PlanStatus>, ghost i: nat)
      requires At(owner, Looping(claimable, snapshot, i)) && i < |snapshot| && snapshot[i] != claimable
      modifies this`sys, this`trace, this`own
      ensures At(owner, Looping(claimable, snapshot, i + 1)) && Did(Work(owner, SkipOperation))
    {
      hide Run, ReconcilerMove;
      assert WorkerMove(sys.row, sys.clock, owner, WorkerOf(sys, owner), SkipOperation)
          == Some((sys.row, Looping(claimable, snapshot, i + 1)));
      Take(Work(owner, SkipOperation));
    }

    method ClaimNext(
      owner: Token, token: Token, seconds: int, ghost claimable: PlanStatus, ghost snapshot: seq<PlanStatus>, i: nat)
      returns (r: Result<nat, StoreError>)
      requires At(owner, Looping(claimable, snapshot, i)) && seconds > 0 && i < |snapshot| && snapshot[i] == claimable
      modifies this, store
      ensures Valid()
      ensures r.Success? ==> At(owner, Dispatching(claimable, snapshot, i, token, r.value))
                             && Did(Work(owner, ClaimOp(token, seconds)))
      ensures r.Failure? ==> At(owner, Looping(claimable, snapshot, i)) && Idle()
                             && ClaimOperation(sys.row, i, Some(owner), token, sys.clock, seconds).Failure?
    {
      hide Run, ReconcilerMove;
      Interfere(owner);
      r := store.ClaimOperation(planId, i, Some(owner), token, clock, seconds);
      if r.Success? { Take(Work(owner, ClaimOp(token, seconds))); }
    }

    method StartCall(owner: Token, ghost w: Worker)
      requires w.Dispatching? && At(owner, w)
      modifies this, store
      ensures At(owner, Calling(w.claimable, w.snapshot, w.next, w.token, w.attempt))
      ensures Did(Work(owner, WriteProtocol.CallAdapter))
    {
      Interfere(owner);
      Take(Work(owner, WriteProtocol.CallAdapter));
    }

    /** Any adapter answers; an exception it raises becomes UNKNOWN. */
    method Answer(owner: Token, ghost w: Worker) returns (result: ApplyStatus)
      requires w.Calling? && At(owner, w)
      modifies this, store
      ensures AdapterResult(result) && Did(Work(owner, AdapterReturns(result)))
      ensures At(owner, Returned(w.claimable, w.snapshot, w.next, w.token, w.attempt, result))
    {
      Interfere(owner);
      result := *;
      if !AdapterResult(result) { result := Unknown; }
      Take(Work(owner, AdapterReturns(result)));
    }

    method RecordNow(owner: Token, i: nat, receipt: Receipt, token: Token, ghost w: Worker) returns (done: bool)
      requires w.Returned? && At(owner, w) && i == w.next && token == w.token && receipt == ReceiptOf(w)
      modifies this, store
      ensures At(owner, if !done then w
                        else if IsSuccess(w.result) then Looping(w.claimable, w.snapshot, w.next + 1)
                        else Stopped)
      ensures if done then Did(Work(owner, Record))
              else Idle() && RecordReceipt(sys.row, i, receipt, Some(owner), Some(token), sys.clock).Failure?
    {
      hide Run, ReconcilerMove, ReceiptFenced, PersistedAggregate, CanTransition;
      Interfere(owner);
      var r := store.RecordReceipt(planId, i, receipt, Some(owner), Some(token), clock);
      done := r.Success?;
      if done { Take(Work(owner, Record)); }
    }

    ghost predicate ReconcilerAt(rid: nat, r: Reconciler)
      reads this, store
    {
      Valid() && rid < nextToken && ReconcilerOf(sys, rid) == Some(r)
    }

    method FenceNow(rid: nat) returns (fenced: bool)
      requires Valid() && rid < nextToken && ReconcilerOf(sys, rid) == None
      modifies this, store
      ensures Valid()
      ensures fenced ==> rid < nextToken && ReconcilerOf(sys, rid).Some? && ReconcilerOf(sys, rid).value.Fencing?
      ensures if fenced then Did(Reconcile(rid, Fence)) else Idle() && LeaseLive(sys.row, old(clock))
    {
      hide Run, WorkerMove;
      var now := clock;
      Interfere(rid);
      var r := store.BeginReconcile(planId, now);
      fenced := r.Success?;
      if fenced { Take(Reconcile(rid, Fence)); }
    }

    /** The plan that `begin_reconcile` returns, read once its transaction is over. */
    method ReadFencedPlan(rid: nat) returns (plan: Option<WritePlan>)
      requires Valid() && rid < nextToken && ReconcilerOf(sys, rid).Some? && ReconcilerOf(sys, rid).value.Fencing?
      modifies this, store
      ensures plan.Some? && plan.value.status == sys.row.status && Did(Reconcile(rid, CheckStatus))
      ensures ReconcilerAt(rid, if MayReconcile(plan.value.status) then Cleared else Finished)
    {
      hide Run, WorkerMove;
      Interfere(rid);
      plan := store.GetPlan(planId);
      Take(Reconcile(rid, CheckStatus));
    }

    method ReadRows(rid: nat) returns (rows: seq<OpRow>)
      requires ReconcilerAt(rid, Cleared)
      modifies this, store
      ensures ReconcilerAt(rid, Scanning(rows, 0)) && Did(Reconcile(rid, ReadSnapshot)) && rows == sys.row.ops
      ensures ReadBy(start, trace, |old(trace)|, Reconcile(rid, ReadSnapshot), rows)
    {
      Interfere(rid);
      var record := store.GetPlanRecord(planId);
      rows := record.value.ops;
      Take(Reconcile(rid, ReadSnapshot));
      StepReads(start, trace, Reconcile(rid, ReadSnapshot), rows);
    }

    method SkipRowNow(rid: nat, ghost rows: seq<OpRow>, ghost i: nat)
      requires ReconcilerAt(rid, Scanning(rows, i)) && i < |rows|
      requires rows[i].status != Issued && !Unresolved(rows[i].status)
      modifies this`sys, this`trace, this`own
      ensures ReconcilerAt(rid, Scanning(rows, i + 1)) && Did(Reconcile(rid, SkipRow))
    {
      hide Run;
      assert ReconcilerMove(sys.row, sys.clock, ReconcilerOf(sys, rid), SkipRow)
          == Some((sys.row, Scanning(rows, i + 1)));
      Take(Reconcile(rid, SkipRow));
    }

    /** Any reader, classified against the expected and desired states. */
    method ReadBackend(rid: nat, ghost rows: seq<OpRow>, ghost i: nat) returns (observed: ApplyStatus)
      requires ReconcilerAt(rid, Scanning(rows, i)) && i < |rows| && Unresolved(rows[i].status)
      modifies this, store
      ensures observed in {PlanStatus.Applied, PlanStatus.RetryableNotApplied, PlanStatus.Conflict}
      ensures ReconcilerAt(rid, Observed(rows, i, Verdict(rows[i], observed)))
      ensures Did(Reconcile(rid, Observe(observed)))
    {
      Interfere(rid);
      if * { observed := Applied; } else if * { observed := RetryableNotApplied; } else { observed := Conflict; }
      Take(Reconcile(rid, Observe(observed)));
    }

    method WriteVerdict(rid: nat, i: nat, receipt: Receipt, ghost r: Reconciler) returns (done: bool)
      requires ReconcilerAt(rid, r) && (r.Scanning? || r.Observed?) && i == r.next < |r.rows|
      requires r.Scanning? ==> r.rows[i].status == Issued
      requires receipt == VerdictReceipt(r.rows[i], if r.Observed? then r.verdict else RetryableNotApplied)
      modifies this, store
      ensures Valid()
      ensures done ==> ReconcilerAt(rid, Scanning(r.rows, i + 1))
      ensures if done then Did(Reconcile(rid, RecordVerdict))
              else ReconcilerAt(rid, r) && Idle() && RecordReconciliation(sys.row, i, receipt).Failure?
    {
      hide Run, WorkerMove, PersistedAggregate;
      Interfere(rid);
      var w := store.RecordReconciliationReceipt(planId, i, receipt);
      done := w.Success?;
      if done { Take(Reconcile(rid, RecordVerdict)); }
    }
  }
}
