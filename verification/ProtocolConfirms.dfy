/** Runs of confirm and reconcile calls, in any number and interleaving, without a resume call. */
module ProtocolConfirms {
  import opened Wrappers
  import opened WritePlans
  import opened PlanRows
  import opened WriteProtocol
  import opened ProtocolSafety
  import opened ProtocolCoherence
  import opened CoherentSteps
  import opened ProtocolAttempts

  predicate Resumes(w: Worker) {
    BeforeClaim(w) || Resuming(w)
  }

  ghost predicate NeverResumed(s: Sys) {
    Coherent(s) && forall o | o in s.workers :: !Resumes(s.workers[o])
  }

  /** Without resume calls, only a confirming holder changes operations. */
  lemma ConfirmingMove(row: PlanRow, clock: int, owner: Token, w: Option<Worker>, action: Action)
    requires (w.Some? ==> !Resumes(w.value)) && !action.ReadPlan?
    requires WorkerMove(row, clock, owner, w, action).Some?
    ensures !Resumes(WorkerMove(row, clock, owner, w, action).value.1)
    ensures (w.None? || !InLoop(w.value)) ==> WorkerMove(row, clock, owner, w, action).value.0.ops == row.ops
  {
    hide PersistedAggregate, CanTransition, ReceiptFenced, LeaseLive, GuardOver;
  }

  lemma StepKeepsNeverResumed(s: Sys, step: Step, s': Sys)
    requires NeverResumed(s) && !IsResume(step) && Apply(s, step) == Some(s')
    ensures NeverResumed(s')
  {
    hide WorkerMove, ReconcilerMove, Coherent;
    StepKeepsCoherent(s, step, s');
    if step.Work? {
      WorkEffect(s, step.owner, step.action, s');
      ConfirmingMove(s.row, s.clock, step.owner, WorkerOf(s, step.owner), step.action);
    }
  }

  // ---- At most once ----------------------------------------------------------------

  /** Nothing was dispatched twice, whatever is on offer. */
  ghost predicate TriedOnce(s: Sys) {
    && NeverResumed(s)
    && (forall i | 0 <= i < |s.row.ops| :: s.row.ops[i].attempt <= 1)
    && CallsAreAttempts(s.workers, s.calls, s.row.ops)
  }

  /** While a confirming call holds the lease nothing is on offer, so it claims only what is ISSUED. */
  lemma ConfirmingClaimIsFirst(s: Sys, owner: Token, action: Action, s': Sys)
    requires NeverResumed(s) && Apply(s, Work(owner, action)) == Some(s')
    ensures FirstTry(s.row.ops, WorkerOf(s, owner), action)
  {
    if action.ClaimOp? {
      hide ReconcilerMove, RowInv, ReconcilerFits, OnlyFirst, FinalMeansStuck, NoneIssued, HolderFits;
      var w := s.workers[owner];
      assert WorkerFits(w, s.row, Holder(s));
      assert Holder(s) == Some(w) && Confirming(w);
      assert !SomeReplay(s.row.ops);
    }
  }

  lemma AttemptsGrow(row: PlanRow, clock: int, owner: Token, w: Option<Worker>, action: Action)
    requires WorkerMove(row, clock, owner, w, action).Some? && FirstTry(row.ops, w, action)
    requires forall i | 0 <= i < |row.ops| :: row.ops[i].attempt <= 1
    ensures var ops' := WorkerMove(row, clock, owner, w, action).value.0.ops;
            |ops'| == |row.ops| && forall i | 0 <= i < |row.ops| :: ops'[i].attempt <= 1
  {
    hide PersistedAggregate, CanTransition, GuardOver;
  }

  lemma WorkKeepsTriedOnce(s: Sys, owner: Token, action: Action, s': Sys)
    requires TriedOnce(s) && !action.ReadPlan? && Apply(s, Work(owner, action)) == Some(s')
    ensures TriedOnce(s')
  {
    hide Apply, WorkerMove, CallStep, CallsAreAttempts, CountCall, Coherent, FirstTry, Resumes;
    StepKeepsNeverResumed(s, Work(owner, action), s');
    WorkEffect(s, owner, action, s');
    ConfirmingClaimIsFirst(s, owner, action, s');
    AttemptsGrow(s.row, s.clock, owner, WorkerOf(s, owner), action);
    CallsFit(s);
    WorkerMoveCalls(s.row, s.clock, owner, WorkerOf(s, owner), action, s.calls);
    CallStepKeepsCalls(s.workers, owner, s'.workers[owner], s.calls, s'.calls, s.row.ops, s'.row.ops);
  }

  lemma CallsFit(s: Sys)
    requires CallsAreAttempts(s.workers, s.calls, s.row.ops)
    ensures |s.calls| == |s.row.ops|
  {
  }

  lemma StepKeepsTriedOnce(s: Sys, step: Step, s': Sys)
    requires TriedOnce(s) && !IsResume(step) && Apply(s, step) == Some(s')
    ensures TriedOnce(s')
  {
    hide WorkerMove, ReconcilerMove, CallsAreAttempts, Coherent, Resumes;
    StepKeepsNeverResumed(s, step, s');
    match step
    case Work(owner, action) => WorkKeepsTriedOnce(s, owner, action, s');
    case Reconcile(rid, inspection) =>
      ReconcileEffect(s, rid, inspection, s');
      ReconcilerMoveOps(s.row, s.clock, ReconcilerOf(s, rid), inspection);
      SameAttemptsKeepCalls(s.workers, s.calls, s.row.ops, s'.row.ops);
    case _ =>
  }

  lemma {:induction false} RunKeepsTriedOnce(s: Sys, steps: seq<Step>, s': Sys)
    requires TriedOnce(s) && WithoutResume(steps) && Run(s, steps) == Some(s')
    ensures TriedOnce(s')
  {
    if steps != [] {
      hide Apply, TriedOnce;
      var init, last := steps[..|steps| - 1], steps[|steps| - 1];
      var middle := Run(s, init).value;
      assert last in steps && forall step | step in init :: step in steps;
      RunKeepsTriedOnce(s, init, middle);
      StepKeepsTriedOnce(middle, last, s');
    }
  }

  /** Any number of confirm and reconcile calls may interleave in any way, with stale verdicts or without:
      until somebody resumes the plan, each operation is dispatched at most once. */
  lemma AtMostOnceWithoutResume(start: Sys, steps: seq<Step>, s: Sys)
    requires Init(start) && WithoutResume(steps) && Run(start, steps) == Some(s)
    ensures |s.calls| == |s.row.ops|
    ensures forall i | 0 <= i < |s.calls| :: s.calls[i] <= s.row.ops[i].attempt <= 1
  {
    InitIsAccounted(start);
    RunKeepsTriedOnce(start, steps, s);
  }

  // ---- In order --------------------------------------------------------------------

  lemma {:induction false} RunKeepsNeverResumed(s: Sys, steps: seq<Step>, s': Sys)
    requires NeverResumed(s) && WithoutResume(steps) && Run(s, steps) == Some(s')
    ensures NeverResumed(s')
  {
    if steps != [] {
      hide Apply, NeverResumed;
      var init, last := steps[..|steps| - 1], steps[|steps| - 1];
      var middle := Run(s, init).value;
      assert last in steps && forall step | step in init :: step in steps;
      RunKeepsNeverResumed(s, init, middle);
      StepKeepsNeverResumed(middle, last, s');
    }
  }

  lemma NoClaimPastGuard(s: Sys, step: Step)
    requires NeverResumed(s) && Apply(s, step).Some?
    ensures !(step.Work? && step.action.ResumeClaim?)
  {
    hide ReconcilerMove, Coherent;
  }

  /** No call claims past a guard. */
  lemma {:induction false} WithoutResumeClaimsAreOrderly(start: Sys, steps: seq<Step>)
    requires Init(start) && WithoutResume(steps)
    ensures ClaimsOrderly(start, steps)
  {
    if steps != [] {
      hide Apply, OrderlyClaim;
      var init, last := steps[..|steps| - 1], steps[|steps| - 1];
      assert last in steps && forall step | step in init :: step in steps;
      WithoutResumeClaimsAreOrderly(start, init);
      if Run(start, steps).Some? {
        InitIsCoherent(start);
        hide Init;
        var middle := Run(start, init).value;
        RunKeepsNeverResumed(start, init, middle);
        NoClaimPastGuard(middle, last);
      }
    }
  }

  // ---- Fresh verdicts ----------------------------------------------------------------

  predicate SameAttempts(rows: seq<OpRow>, ops: seq<OpRow>) {
    |rows| == |ops| && forall i | 0 <= i < |ops| :: rows[i].attempt == ops[i].attempt
  }

  /** Without resume, nobody can dispatch any more. */
  ghost predicate IsQuiet(row: PlanRow, clock: int, holder: Option<Worker>) {
    ConfirmIsOver(row, holder) || (row.status != Issued && !LeaseLive(row, clock))
  }

  /** A reconciler that goes on has nothing to fear from an executor. */
  ghost predicate FencedOut(r: Reconciler, row: PlanRow, clock: int, holder: Option<Worker>) {
    && (Onward(r) ==> IsQuiet(row, clock, holder))
    && (r.Fencing? && r.seen != Issued ==> ConfirmIsOver(row, holder) || IsFinal(row.status))
    && (r.Scanning? || r.Observed? ==> SameAttempts(r.rows, row.ops))
  }

  ghost predicate Undisturbed(s: Sys) {
    NeverResumed(s) && forall r | r in s.reconcilers :: FencedOut(s.reconcilers[r], s.row, s.clock, Holder(s))
  }

  lemma QuietMove(row: PlanRow, clock: int, owner: Token, w: Option<Worker>, action: Action)
    requires (w.Some? ==> !Resumes(w.value)) && row.status != Issued && !LeaseLive(row, clock)
    requires WorkerMove(row, clock, owner, w, action).Some?
    ensures WorkerMove(row, clock, owner, w, action).value.0 == row
  {
    hide PersistedAggregate, CanTransition, GuardOver;
  }

  lemma WorkKeepsUndisturbed(s: Sys, owner: Token, action: Action, s': Sys)
    requires Undisturbed(s) && !action.ReadPlan? && Apply(s, Work(owner, action)) == Some(s')
    ensures Undisturbed(s')
  {
    hide Apply, WorkerMove, RowFits, HolderFits, ReconcilerFits, RowInv, SameAttempts;
    StepKeepsNeverResumed(s, Work(owner, action), s');
    WorkEffect(s, owner, action, s');
    WorkKeepsCoherent(s, owner, action, s');
    ConfirmingMove(s.row, s.clock, owner, WorkerOf(s, owner), action);
    OpsWithoutLease(s.row, s.clock, owner, WorkerOf(s, owner), action);
    if s.row.status != Issued && !LeaseLive(s.row, s.clock) {
      QuietMove(s.row, s.clock, owner, WorkerOf(s, owner), action);
    }
    forall r | r in s'.reconcilers ensures FencedOut(s'.reconcilers[r], s'.row, s'.clock, Holder(s')) {
      if Onward(s.reconcilers[r]) && s.row.leaseOwner == Some(owner) && owner in s.workers {
        assert WorkerFits(s.workers[owner], s.row, Holder(s));
      }
    }
  }

  /** A plan that stands still is out of reach of executors, unless it is final or ISSUED. */
  lemma UnheldIsOver(row: PlanRow, holder: Option<Worker>)
    requires RowInv(row) && (row.leaseOwner.None? ==> holder.None?)
    requires row.status in {Unknown, LegacyUnknown, RetryableNotApplied}
    ensures ConfirmIsOver(row, holder)
  {
  }

  lemma FenceFencesOut(row: PlanRow, holder: Option<Worker>, clock: int)
    requires RowInv(row) && RowFits(row, holder) && (row.leaseOwner.None? ==> holder.None?)
    requires BeginReconcile(row, clock).Success?
    ensures var row' := BeginReconcile(row, clock).value;
            FencedOut(Fencing(row.status), row', clock, if row'.leaseOwner.None? then None else holder)
  {
    FenceFits(row, holder, clock);
    if row.status == RetryableNotApplied { UnheldIsOver(row, holder); }
  }

  lemma InspectionFencesOut(row: PlanRow, holder: Option<Worker>, clock: int, r: Reconciler, inspection: Inspection)
    requires RowInv(row) && (row.leaseOwner.None? ==> holder.None?) && FencedOut(r, row, clock, holder)
    requires !inspection.RecordVerdict? && ReconcilerMove(row, clock, Some(r), inspection).Some?
    requires inspection.CheckStatus? && r.Fencing? ==>
               !(r.seen == Issued && row.status == Partial && LeaseLive(row, clock))
    ensures var (row', r') := ReconcilerMove(row, clock, Some(r), inspection).value;
            row' == row && FencedOut(r', row, clock, holder)
  {
    hide RecordMove, BeginReconcile;
    if inspection.CheckStatus? && row.status in {Unknown, LegacyUnknown} { UnheldIsOver(row, holder); }
    hide ConfirmIsOver, RowInv;
  }

  lemma NoLeaseFromReconcilers(row: PlanRow, clock: int, r: Option<Reconciler>, inspection: Inspection)
    requires ReconcilerMove(row, clock, r, inspection).Some? && !LeaseLive(row, clock)
    ensures !LeaseLive(ReconcilerMove(row, clock, r, inspection).value.0, clock)
  {
    hide PersistedAggregate;
  }

  lemma ReconcileKeepsUndisturbed(s: Sys, rid: nat, inspection: Inspection, s': Sys)
    requires Undisturbed(s) && FencedBefore(s, Reconcile(rid, inspection))
    requires Apply(s, Reconcile(rid, inspection)) == Some(s')
    ensures Undisturbed(s')
  {
    hide Apply, ReconcilerMove, RowFits, HolderFits, ReconcilerFits, WorkerFits, RowInv, WorkerMove, ConfirmIsOver,
         Resumes;
    StepKeepsNeverResumed(s, Reconcile(rid, inspection), s');
    ReconcileEffect(s, rid, inspection, s');
    ReconcileKeepsCoherent(s, rid, inspection, s');
    ReconcilerMoveOps(s.row, s.clock, ReconcilerOf(s, rid), inspection);
    StepKeepsSafe(s, Reconcile(rid, inspection), s');
    if !LeaseLive(s.row, s.clock) { NoLeaseFromReconcilers(s.row, s.clock, ReconcilerOf(s, rid), inspection); }
    OwnMoveFencesOut(s, rid, inspection, s');
  }

  lemma OwnMoveFencesOut(s: Sys, rid: nat, inspection: Inspection, s': Sys)
    requires Undisturbed(s) && FencedBefore(s, Reconcile(rid, inspection))
    requires Apply(s, Reconcile(rid, inspection)) == Some(s') && Moves(s, s')
    ensures rid in s'.reconcilers && FencedOut(s'.reconcilers[rid], s'.row, s'.clock, Holder(s'))
  {
    hide Apply, RowFits, HolderFits, ReconcilerFits, WorkerFits, RowInv, WorkerMove, ConfirmIsOver, Resumes;
    ReconcileEffect(s, rid, inspection, s');
    var r := ReconcilerOf(s, rid);
    StepKeepsSafe(s, Reconcile(rid, inspection), s');
    if !LeaseLive(s.row, s.clock) { NoLeaseFromReconcilers(s.row, s.clock, r, inspection); }
    if inspection.Fence? && r.None? {
      FenceFencesOut(s.row, Holder(s), s.clock);
    } else if inspection.RecordVerdict? {
      ReconcilerMoveOps(s.row, s.clock, r, inspection);
      hide RecordReconciliation;
    } else {
      InspectionFencesOut(s.row, Holder(s), s.clock, r.value, inspection);
    }
  }

  lemma StepKeepsUndisturbed(s: Sys, step: Step, s': Sys)
    requires Undisturbed(s) && FencedBefore(s, step) && !IsResume(step) && Apply(s, step) == Some(s')
    ensures Undisturbed(s')
  {
    hide WorkerMove, ReconcilerMove, RowFits, HolderFits, WorkerFits, ReconcilerFits, RowInv, ConfirmIsOver,
         SameAttempts;
    StepKeepsNeverResumed(s, step, s');
    match step
    case Work(owner, action) => WorkKeepsUndisturbed(s, owner, action, s');
    case Reconcile(rid, inspection) => ReconcileKeepsUndisturbed(s, rid, inspection, s');
    case Expire => ExpireKeepsCoherent(s, s');
    case Tick(_) =>
  }

  lemma {:induction false} RunKeepsUndisturbed(s: Sys, steps: seq<Step>, s': Sys)
    requires Undisturbed(s) && WithoutResume(steps) && FencesHeld(s, steps) && Run(s, steps) == Some(s')
    ensures Undisturbed(s')
  {
    if steps != [] {
      hide Apply, Undisturbed, FencedBefore;
      var init, last := steps[..|steps| - 1], steps[|steps| - 1];
      var middle := Run(s, init).value;
      assert last in steps && forall step | step in init :: step in steps;
      RunKeepsUndisturbed(s, init, middle);
      StepKeepsUndisturbed(middle, last, s');
    }
  }

  lemma UndisturbedVerdictIsFresh(s: Sys, step: Step)
    requires Undisturbed(s)
    ensures VerdictIsFresh(s, step)
  {
    hide NeverResumed, ConfirmIsOver;
    if step.Reconcile? && step.rid in s.reconcilers {
      assert FencedOut(s.reconcilers[step.rid], s.row, s.clock, Holder(s));
    }
  }

  /** Without resume, every snapshot a verdict rests on is still current, provided that no reconciler goes
      on with a PARTIAL plan that its own fencing block found ISSUED. */
  lemma {:induction false} FencedVerdictsAreFresh(start: Sys, steps: seq<Step>)
    requires Init(start) && WithoutResume(steps) && FencesHeld(start, steps)
    ensures VerdictsFresh(start, steps)
  {
    if steps != [] {
      hide Apply, FencedBefore, VerdictIsFresh;
      var init, last := steps[..|steps| - 1], steps[|steps| - 1];
      assert last in steps && forall step | step in init :: step in steps;
      FencedVerdictsAreFresh(start, init);
      if Run(start, steps).Some? {
        InitIsCoherent(start);
        hide Init;
        var middle := Run(start, init).value;
        RunKeepsUndisturbed(start, init, middle);
        UndisturbedVerdictIsFresh(middle, last);
      }
    }
  }

  /** A plan of one operation is never PARTIAL. */
  lemma {:induction false} OneOperationIsFenced(start: Sys, steps: seq<Step>)
    requires Init(start) && |start.row.ops| == 1
    ensures FencesHeld(start, steps)
  {
    if steps != [] {
      hide Apply;
      var init := steps[..|steps| - 1];
      OneOperationIsFenced(start, init);
      if Run(start, steps).Some? {
        InitIsSafe(start);
        hide Init;
        RunKeepsSafe(start, init, Run(start, init).value);
        OneOperationIsNotPartial(Run(start, init).value.row);
      }
    }
  }

  lemma OneOperationIsNotPartial(row: PlanRow)
    requires RowInv(row) && |row.ops| == 1
    ensures row.status != Partial
  {
    if SomeSucceeded(row) {
      assert AllSucceeded(row);
    }
  }
}
