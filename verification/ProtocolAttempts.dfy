/** At-most-once dispatch, on every run in which no replay verdict rests on a stale snapshot. */
module ProtocolAttempts {
  import opened Wrappers
  import opened WritePlans
  import opened PlanRows
  import opened WriteProtocol
  import opened ProtocolSafety
  import opened ProtocolCoherence
  import opened CoherentSteps

  /** Work that is on offer was never dispatched, and nothing was dispatched twice. */
  ghost predicate OpenIsUntried(ops: seq<OpRow>) {
    forall i | 0 <= i < |ops| :: ops[i].attempt <= 1 && (ops[i].attempt == 0 <==> IsOpen(ops[i].status))
  }

  /** Every adapter call belongs to an attempt, and a claimed but uncalled operation has no call. */
  ghost predicate CallsAreAttempts(workers: map<Token, Worker>, calls: seq<nat>, ops: seq<OpRow>) {
    && |calls| == |ops|
    && (forall i | 0 <= i < |calls| :: calls[i] <= ops[i].attempt)
    && (forall o | o in workers :: DispatchIsUncalled(workers[o], calls, ops))
    && (forall o, p | o in workers && p in workers && o != p :: !SameDispatch(workers[o], workers[p]))
  }

  predicate DispatchIsUncalled(w: Worker, calls: seq<nat>, ops: seq<OpRow>) {
    w.Dispatching? ==>
      w.next < |calls| && w.next < |ops| && calls[w.next] == 0 && ops[w.next].attempt > 0
  }

  predicate SameDispatch(v: Worker, w: Worker) {
    v.Dispatching? && w.Dispatching? && v.next == w.next
  }

  ghost predicate Accounted(s: Sys) {
    Coherent(s) && OpenIsUntried(s.row.ops) && CallsAreAttempts(s.workers, s.calls, s.row.ops)
  }

  /** How one worker's step may change the adapter-call counts. */
  ghost predicate CallStep(
    w: Option<Worker>, w': Worker, calls: seq<nat>, calls': seq<nat>, ops: seq<OpRow>, ops': seq<OpRow>)
  {
    && |ops'| == |ops| && |calls'| == |calls|
    && (forall i | 0 <= i < |ops| :: ops'[i].attempt >= ops[i].attempt)
    && (w'.Dispatching? ==>
          w'.next < |ops| && ops[w'.next].attempt == 0 && ops'[w'.next].attempt == 1)
    && (calls' == calls
        || (w.Some? && w.value.Dispatching? && !w'.Dispatching? && w.value.next < |calls|
            && calls' == calls[w.value.next := calls[w.value.next] + 1]))
  }

  lemma CallStepKeepsCalls(
    workers: map<Token, Worker>, owner: Token, w': Worker,
    calls: seq<nat>, calls': seq<nat>, ops: seq<OpRow>, ops': seq<OpRow>)
    requires CallsAreAttempts(workers, calls, ops)
    requires CallStep(if owner in workers then Some(workers[owner]) else None, w', calls, calls', ops, ops')
    ensures CallsAreAttempts(workers[owner := w'], calls', ops')
  {
    var workers' := workers[owner := w'];
    forall o | o in workers' ensures DispatchIsUncalled(workers'[o], calls', ops') {
      if o != owner && calls' != calls { assert !SameDispatch(workers[o], workers[owner]); }
    }
  }

  /** An operation that is about to be claimed was never claimed before. */
  predicate FirstTry(ops: seq<OpRow>, w: Option<Worker>, action: Action) {
    action.ClaimOp? && w.Some? && w.value.Looping? && w.value.next < |ops| && IsOpen(ops[w.value.next].status) ==>
      ops[w.value.next].attempt == 0
  }

  lemma WorkerMoveCalls(
    row: PlanRow, clock: int, owner: Token, w: Option<Worker>, action: Action, calls: seq<nat>)
    requires FirstTry(row.ops, w, action) && |calls| == |row.ops|
    requires WorkerMove(row, clock, owner, w, action).Some?
    ensures var (row', w') := WorkerMove(row, clock, owner, w, action).value;
            CallStep(w, w', calls, if action.CallAdapter? then CountCall(calls, w') else calls, row.ops, row'.ops)
  {
    hide PersistedAggregate, CanTransition, ReceiptFenced, WithOpStatus, LeaseLive, GuardOver;
  }

  lemma UntriedIsFirst(ops: seq<OpRow>, w: Option<Worker>, action: Action)
    requires OpenIsUntried(ops)
    ensures FirstTry(ops, w, action)
  {
  }

  lemma WorkerMoveKeepsUntried(row: PlanRow, clock: int, owner: Token, w: Option<Worker>, action: Action)
    requires RowInv(row) && OpenIsUntried(row.ops) && (w.Some? ==> WorkerInv(w.value))
    requires WorkerMove(row, clock, owner, w, action).Some?
    ensures OpenIsUntried(WorkerMove(row, clock, owner, w, action).value.0.ops)
  {
    hide PersistedAggregate, CanTransition, RowInv, GuardOver;
  }

  lemma WorkKeepsAccounted(s: Sys, owner: Token, action: Action, s': Sys)
    requires Accounted(s) && Apply(s, Work(owner, action)) == Some(s')
    ensures Accounted(s')
  {
    hide Apply, WorkerMove, CallStep, CallsAreAttempts, OpenIsUntried, CountCall, RowInv, RowFits, WorkerFits,
         HolderFits, ReconcilerFits;
    WorkEffect(s, owner, action, s');
    WorkKeepsCoherent(s, owner, action, s');
    var w := WorkerOf(s, owner);
    var (row', w') := WorkerMove(s.row, s.clock, owner, w, action).value;
    WorkerMoveKeepsUntried(s.row, s.clock, owner, w, action);
    UntriedIsFirst(s.row.ops, w, action);
    WorkerMoveCalls(s.row, s.clock, owner, w, action, s.calls);
    CallStepKeepsCalls(s.workers, owner, w', s.calls, s'.calls, s.row.ops, row'.ops);
  }

  /** A reconciler changes no attempt, and the status of an operation only when it writes a verdict. */
  lemma ReconcilerMoveOps(row: PlanRow, clock: int, r: Option<Reconciler>, inspection: Inspection)
    requires ReconcilerMove(row, clock, r, inspection).Some?
    ensures var row' := ReconcilerMove(row, clock, r, inspection).value.0;
            && |row'.ops| == |row.ops|
            && (forall i | 0 <= i < |row.ops| :: row'.ops[i].attempt == row.ops[i].attempt)
            && (!inspection.RecordVerdict? ==> row'.ops == row.ops)
  {
    hide PersistedAggregate;
  }

  lemma SameAttemptsKeepCalls(workers: map<Token, Worker>, calls: seq<nat>, ops: seq<OpRow>, ops': seq<OpRow>)
    requires CallsAreAttempts(workers, calls, ops) && |ops'| == |ops|
    requires forall i | 0 <= i < |ops| :: ops'[i].attempt == ops[i].attempt
    ensures CallsAreAttempts(workers, calls, ops')
  {
    forall o | o in workers ensures DispatchIsUncalled(workers[o], calls, ops') {
      assert DispatchIsUncalled(workers[o], calls, ops);
    }
  }

  /** What the verdict that is due does to the operation it is for. */
  lemma RecordedVerdict(row: PlanRow, clock: int, r: Reconciler)
    requires SnapshotFits(r, row.ops) && ReconcilerMove(row, clock, Some(r), RecordVerdict).Some?
    ensures (r.Scanning? || r.Observed?) && r.next < |r.rows| == |row.ops|
    ensures var row' := ReconcilerMove(row, clock, Some(r), RecordVerdict).value.0;
            && row'.ops == row.ops[r.next := row'.ops[r.next]]
            && row'.ops[r.next].attempt == row.ops[r.next].attempt
            && (IsReplay(r) <==> row'.ops[r.next].status == RetryableNotApplied)
            && (IsReplay(r) ==> r.rows[r.next].attempt == 0)
            && (!IsReplay(r) ==> row.ops[r.next].attempt > 0 && !IsOpen(row'.ops[r.next].status))
  {
    hide PersistedAggregate;
  }

  /** Freshness is exactly what a replay verdict needs: the work that is on offer still was never
      dispatched if and only if the operation was not claimed since the snapshot. */
  lemma ReplayVerdictIsSafeExactlyWhenFresh(s: Sys, rid: nat, s': Sys)
    requires OpenIsUntried(s.row.ops) && rid in s.reconcilers && SnapshotFits(s.reconcilers[rid], s.row.ops)
    requires Apply(s, Reconcile(rid, RecordVerdict)) == Some(s')
    ensures OpenIsUntried(s'.row.ops) <==> FreshVerdict(s.row, s.reconcilers[rid])
  {
    hide Apply, ReconcilerMove;
    var r := s.reconcilers[rid];
    ReconcileEffect(s, rid, RecordVerdict, s');
    RecordedVerdict(s.row, s.clock, r);
    forall i | 0 <= i < |s.row.ops| && i != r.next ensures s'.row.ops[i] == s.row.ops[i] {}
  }

  lemma ReconcileKeepsAccounted(s: Sys, rid: nat, inspection: Inspection, s': Sys)
    requires Accounted(s) && VerdictIsFresh(s, Reconcile(rid, inspection))
    requires Apply(s, Reconcile(rid, inspection)) == Some(s')
    ensures Accounted(s')
  {
    hide ReconcilerMove, CallsAreAttempts, OpenIsUntried, RowInv, RowFits, WorkerFits, HolderFits, SnapshotFits,
         ScanFits, FreshVerdict, ConfirmIsOver, WorkerMove;
    ReconcileEffect(s, rid, inspection, s');
    ReconcileKeepsCoherent(s, rid, inspection, s');
    ReconcilerMoveOps(s.row, s.clock, ReconcilerOf(s, rid), inspection);
    SameAttemptsKeepCalls(s.workers, s.calls, s.row.ops, s'.row.ops);
    if inspection.RecordVerdict? {
      VerdictNeedsReconciler(s.row, s.clock, ReconcilerOf(s, rid));
      ReplayVerdictIsSafeExactlyWhenFresh(s, rid, s');
    }
  }

  lemma VerdictNeedsReconciler(row: PlanRow, clock: int, r: Option<Reconciler>)
    requires ReconcilerMove(row, clock, r, RecordVerdict).Some?
    ensures r.Some?
  {
  }

  lemma StepKeepsAccounted(s: Sys, step: Step, s': Sys)
    requires Accounted(s) && VerdictIsFresh(s, step) && Apply(s, step) == Some(s')
    ensures Accounted(s')
  {
    hide WorkerMove, ReconcilerMove, RowFits, HolderFits, WorkerFits, ReconcilerFits, RowInv;
    match step
    case Tick(_) =>
    case Expire => ExpireKeepsCoherent(s, s');
    case Work(owner, action) => WorkKeepsAccounted(s, owner, action, s');
    case Reconcile(rid, inspection) => ReconcileKeepsAccounted(s, rid, inspection, s');
  }

  lemma {:induction false} RunKeepsAccounted(s: Sys, steps: seq<Step>, s': Sys)
    requires Accounted(s) && VerdictsFresh(s, steps) && Run(s, steps) == Some(s')
    ensures Accounted(s')
  {
    if steps != [] {
      hide Apply, Accounted;
      var middle := Run(s, steps[..|steps| - 1]).value;
      RunKeepsAccounted(s, steps[..|steps| - 1], middle);
      StepKeepsAccounted(middle, steps[|steps| - 1], s');
    }
  }

  lemma InitIsAccounted(s: Sys)
    requires Init(s)
    ensures Accounted(s)
  {
    InitIsCoherent(s);
    forall i | 0 <= i < |s.row.ops| ensures s.row.ops[i] in s.row.ops && s.calls[i] in s.calls {}
  }

  // ---- The guarantees ---------------------------------------------------------

  /** Each operation is dispatched at most once over all confirm, reconcile and resume rounds,
      and work that is still on offer was never dispatched. */
  lemma AtMostOnceDispatch(start: Sys, steps: seq<Step>, s: Sys)
    requires Init(start) && VerdictsFresh(start, steps) && Run(start, steps) == Some(s)
    ensures |s.calls| == |s.row.ops|
    ensures forall i | 0 <= i < |s.calls| :: s.calls[i] <= s.row.ops[i].attempt <= 1
    ensures forall i | 0 <= i < |s.calls| && s.row.ops[i].status in {Issued, RetryableNotApplied} ::
              s.row.ops[i].attempt == 0 && s.calls[i] == 0
  {
    InitIsAccounted(start);
    RunKeepsAccounted(start, steps, s);
  }

  function Total(calls: seq<nat>): nat {
    if calls == [] then 0 else calls[0] + Total(calls[1..])
  }

  lemma {:induction false} TotalIsBounded(calls: seq<nat>)
    requires forall i | 0 <= i < |calls| :: calls[i] <= 1
    ensures Total(calls) <= |calls|
  {
    if calls != [] { TotalIsBounded(calls[1..]); }
  }

  /** So a plan makes at most as many adapter calls as it has operations, over all rounds. */
  lemma CallsAreBounded(start: Sys, steps: seq<Step>, s: Sys)
    requires Init(start) && VerdictsFresh(start, steps) && Run(start, steps) == Some(s)
    ensures Total(s.calls) <= |s.row.ops|
  {
    AtMostOnceDispatch(start, steps, s);
    TotalIsBounded(s.calls);
  }
}
