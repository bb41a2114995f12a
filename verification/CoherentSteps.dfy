/** Every step of every call keeps the coherence of the system. */
module CoherentSteps {
  import opened Wrappers
  import opened WritePlans
  import opened PlanRows
  import opened WriteProtocol
  import opened ProtocolSafety
  import opened ProtocolCoherence

  // ---- The lease holder's steps -----------------------------------------------

  lemma ClaimChange(row: PlanRow, i: nat, owner: Token, token: Token, now: int, seconds: int)
    requires RowInv(row)
    requires ClaimOperation(row, i, Some(owner), token, now, seconds).Success?
    ensures var row' := ClaimOperation(row, i, Some(owner), token, now, seconds).value;
            && i < |row.ops| && IsOpen(row.ops[i].status) && row'.ops == row.ops[i := row'.ops[i]]
            && row'.ops[i].status == Executing && row'.ops[i].attempt == row.ops[i].attempt + 1
            && row'.ops[i].attemptToken == Some(token)
            && row'.status == row.status && row'.leaseOwner == row.leaseOwner == Some(owner)
            && (row.status == Executing || row.status == Partial)
            && (SomeDone(row'.ops) <==> SomeDone(row.ops))
            && (SomeReplay(row'.ops) ==> SomeReplay(row.ops))
  {
    var row' := ClaimOperation(row, i, Some(owner), token, now, seconds).value;
    DoneStays(row.ops, i, row'.ops[i]);
    if k :| 0 <= k < |row.ops| && row'.ops[k].status == RetryableNotApplied {
      assert row.ops[k].status == RetryableNotApplied;
    }
  }

  lemma ClaimOperationFits(row: PlanRow, owner: Token, w: Worker, token: Token, now: int, seconds: int)
    requires RowInv(row) && RowFits(row, Some(w)) && HolderFits(w, row.ops) && WorkerFits(w, row, Some(w))
    requires w.Looping? && w.next < |w.snapshot| && w.snapshot[w.next] == w.claimable
    requires ClaimOperation(row, w.next, Some(owner), token, now, seconds).Success?
    ensures var row' := ClaimOperation(row, w.next, Some(owner), token, now, seconds).value;
            var w' := Dispatching(w.claimable, w.snapshot, w.next, token, row'.ops[w.next].attempt);
            && RowFits(row', Some(w')) && HolderFits(w', row'.ops) && WorkerFits(w', row', Some(w'))
            && Progress(row, Some(w), row', Some(w'))
  {
    ClaimChange(row, w.next, owner, token, now, seconds);
    hide ClaimOperation, RowInv, SomeDone, SomeReplay;
  }

  /** A stored receipt, while nothing had succeeded before. */
  lemma FirstReceiptFits(row: PlanRow, w: Worker, owner: Token, now: int)
    requires RowInv(row) && RowFits(row, Some(w)) && w.Returned? && AdapterResult(w.result) && !IsSuccess(w.result)
    requires !SomeDone(row.ops) && w.next == 0
    requires row.leaseOwner == Some(owner)
    requires RecordReceipt(row, 0, ReceiptOf(w), Some(owner), Some(w.token), now).Success?
    ensures var row' := RecordReceipt(row, 0, ReceiptOf(w), Some(owner), Some(w.token), now).value;
            && row'.status == w.result
            && (w.result == Rejected ==> forall k | 1 <= k < |row.ops| :: row'.ops[k].status == Issued)
  {
    DoneMeansSucceeded(row);
    var statuses := WithOpStatus(row, 0, w.result);
    AggregateOfFirst(statuses);
    if w.result == Rejected {
      forall k | 1 <= k < |row.ops| ensures row.ops[k].status == Issued {
        assert statuses[k] == row.ops[k].status;
      }
    }
  }

  lemma DoneAt(ops: seq<OpRow>, i: nat)
    requires i < |ops| && IsSuccess(ops[i].status)
    ensures SomeDone(ops)
  {
  }

  lemma DoneStays(ops: seq<OpRow>, i: nat, op: OpRow)
    requires i < |ops| && !IsSuccess(ops[i].status)
    ensures SomeDone(ops[i := op]) <==> SomeDone(ops) || IsSuccess(op.status)
  {
    var ops' := ops[i := op];
    if k :| 0 <= k < |ops| && IsSuccess(ops[k].status) { assert IsSuccess(ops'[k].status); }
    if IsSuccess(op.status) { assert IsSuccess(ops'[i].status); }
    if k :| 0 <= k < |ops| && IsSuccess(ops'[k].status) {
      if k != i { assert IsSuccess(ops[k].status); }
    }
  }

  lemma ReceiptRow(row: PlanRow, w: Worker, owner: Token, now: int)
    requires RowInv(row) && RowFits(row, Some(w)) && HolderFits(w, row.ops) && WorkerFits(w, row, Some(w))
    requires w.Returned? && AdapterResult(w.result) && row.leaseOwner == Some(owner)
    requires RecordReceipt(row, w.next, ReceiptOf(w), Some(owner), Some(w.token), now).Success?
    ensures var row' := RecordReceipt(row, w.next, ReceiptOf(w), Some(owner), Some(w.token), now).value;
            && OnlyFirst(row'.ops) && FinalMeansStuck(row')
            && (row'.status == RetryableNotApplied ==> row'.ops[0].status == RetryableNotApplied)
            && (!SomeDone(row'.ops) && row'.ops[0].status == Rejected ==> row'.status == Rejected)
            && (SomeReplay(row'.ops) ==> SomeReplay(row.ops))
  {
    var row' := RecordReceipt(row, w.next, ReceiptOf(w), Some(owner), Some(w.token), now).value;
    RecordReceiptKeepsRowInv(row, w.next, ReceiptOf(w), Some(owner), Some(w.token), now);
    hide PersistedAggregate, CanTransition, ReceiptFenced, OpInv, Tried, SomeReplay, WorkerFits, ConfirmIsOver,
         RowStep;
    DoneMeansSucceeded(row);
    DoneMeansSucceeded(row');
    if !SomeDone(row'.ops) {
      assert !IsSuccess(row'.ops[w.next].status);
      assert !SomeDone(row.ops) by { DoneStays(row.ops, w.next, row'.ops[w.next]); }
      FirstReceiptFits(row, w, owner, now);
    }
    ReceiptOffersNothing(row, w, owner, now);
  }

  /** A receipt never offers an operation for replay. */
  lemma ReceiptOffersNothing(row: PlanRow, w: Worker, owner: Token, now: int)
    requires w.Returned? && AdapterResult(w.result)
    requires RecordReceipt(row, w.next, ReceiptOf(w), Some(owner), Some(w.token), now).Success?
    ensures var row' := RecordReceipt(row, w.next, ReceiptOf(w), Some(owner), Some(w.token), now).value;
            SomeReplay(row'.ops) ==> SomeReplay(row.ops)
  {
    hide PersistedAggregate, CanTransition, ReceiptFenced;
    var row' := RecordReceipt(row, w.next, ReceiptOf(w), Some(owner), Some(w.token), now).value;
    if k :| 0 <= k < |row.ops| && row'.ops[k].status == RetryableNotApplied {
      assert row.ops[k].status == RetryableNotApplied;
    }
  }

  /** The operation that a receipt is for, and the aggregate, after the transaction. */
  lemma ReceiptChange(row: PlanRow, w: Worker, owner: Token, now: int)
    requires RowInv(row) && w.Returned? && AdapterResult(w.result) && row.leaseOwner == Some(owner)
    requires RecordReceipt(row, w.next, ReceiptOf(w), Some(owner), Some(w.token), now).Success?
    ensures var row' := RecordReceipt(row, w.next, ReceiptOf(w), Some(owner), Some(w.token), now).value;
            && w.next < |row.ops| && row.ops[w.next].status == Executing
            && row'.ops == row.ops[w.next := row'.ops[w.next]]
            && row'.ops[w.next].status == w.result && row'.ops[w.next].attempt == row.ops[w.next].attempt
            && row'.status != Issued && row'.status != Expired
            && (row'.leaseOwner == row.leaseOwner || row'.leaseOwner == None)
            && row.status !in {Applied, AlreadyApplied, Rejected, Conflict, Expired}
  {
    hide PersistedAggregate, CanTransition, NoHiddenPartialWrite, OpInv;
    StatusesAreKnown(row, w.next, w.result);
    AggregateTells(WithOpStatus(row, w.next, w.result), w.next);
  }

  lemma ReceiptProgress(row: PlanRow, w: Worker, owner: Token, now: int)
    requires RowInv(row) && Tried(row.ops) && WorkerFits(w, row, Some(w))
    requires w.Returned? && AdapterResult(w.result) && row.leaseOwner == Some(owner)
    requires RecordReceipt(row, w.next, ReceiptOf(w), Some(owner), Some(w.token), now).Success?
    ensures var row' := RecordReceipt(row, w.next, ReceiptOf(w), Some(owner), Some(w.token), now).value;
            var w' := if IsSuccess(w.result) then Looping(w.claimable, w.snapshot, w.next + 1) else Stopped;
            var holder' := if row'.leaseOwner.Some? then Some(w') else None;
            && Tried(row'.ops) && WorkerFits(w', row', holder') && Progress(row, Some(w), row', holder')
  {
    ReceiptChange(row, w, owner, now);
    hide RecordReceipt, RowInv;
  }

  lemma ReceiptFits(row: PlanRow, w: Worker, owner: Token, now: int)
    requires RowInv(row) && RowFits(row, Some(w)) && HolderFits(w, row.ops) && WorkerFits(w, row, Some(w))
    requires w.Returned? && AdapterResult(w.result) && row.leaseOwner == Some(owner)
    requires RecordReceipt(row, w.next, ReceiptOf(w), Some(owner), Some(w.token), now).Success?
    ensures var row' := RecordReceipt(row, w.next, ReceiptOf(w), Some(owner), Some(w.token), now).value;
            var w' := if IsSuccess(w.result) then Looping(w.claimable, w.snapshot, w.next + 1) else Stopped;
            var holder' := if row'.leaseOwner.Some? then Some(w') else None;
            && RowFits(row', holder') && HolderFits(w', row'.ops) && WorkerFits(w', row', holder')
            && Progress(row, Some(w), row', holder')
  {
    ReceiptChange(row, w, owner, now);
    ReceiptRow(row, w, owner, now);
    ReceiptProgress(row, w, owner, now);
    hide RecordReceipt, RowInv, Tried, OnlyFirst, FinalMeansStuck, WorkerFits, ConfirmIsOver, NoneIssued, SomeReplay,
         SomeDone;
    var row' := RecordReceipt(row, w.next, ReceiptOf(w), Some(owner), Some(w.token), now).value;
    if IsSuccess(w.result) { DoneAt(row'.ops, w.next); }
  }

  // ---- A call's other steps -------------------------------------------------------

  /** Who holds the lease after a step of the call that holds `owner`. */
  function HolderAfter(row': PlanRow, owner: Token, w': Worker, holder: Option<Worker>): Option<Worker> {
    if row'.leaseOwner == Some(owner) then Some(w') else if row'.leaseOwner.None? then None else holder
  }

  lemma AllIssuedAt(row: PlanRow, i: nat)
    requires RowInv(row) && (row.status == Issued || row.status == Expired) && i < |row.ops|
    ensures row.ops[i].status == Issued
  {
    assert row.ops[i] in row.ops;
  }

  lemma GuardMeansNoneIssued(status: PlanStatus, ops: seq<OpRow>)
    requires GuardOver(status, ops)
    ensures NoneIssued(ops) && SomeReplay(ops)
  {
    forall i | 0 <= i < |ops| ensures ops[i].status != Issued { assert ops[i] in ops; }
    var op :| op in ops && op.status == RetryableNotApplied;
    var i :| 0 <= i < |ops| && ops[i] == op;
    assert ops[i].status == RetryableNotApplied;
  }

  /** Claims of the plan by a confirming, or by a resuming call. */
  lemma ClaimPlanFits(row: PlanRow, holder: Option<Worker>, owner: Token, now: int, seconds: int, resume: bool)
    requires RowInv(row) && RowFits(row, holder) && ClaimPlan(row, owner, now, seconds, resume).1
    requires resume ==> NoneIssued(row.ops) && ConfirmIsOver(row, holder)
    ensures var row' := ClaimPlan(row, owner, now, seconds, resume).0;
            var w' := Claimed(if resume then RetryableNotApplied else Issued);
            && RowFits(row', Some(w')) && HolderFits(w', row'.ops) && WorkerFits(w', row', Some(w'))
            && Progress(row, holder, row', Some(w'))
  {
    hide NoHiddenPartialWrite, LeaseLive, OpInv;
    DoneMeansSucceeded(row);
    if row.status == Issued { AllIssuedAt(row, 0); }
    if row.status == Partial { PartialMeansDone(row); }
  }

  lemma PartialMeansDone(row: PlanRow)
    requires RowInv(row) && row.status == Partial
    ensures SomeDone(row.ops)
  {
    DoneMeansSucceeded(row);
  }

  /** Steps that leave the plan row alone. */
  predicate IsLocal(action: Action) {
    !action.ConfirmClaim? && !action.ResumeClaim? && !action.ClaimOp? && !action.Record?
  }

  lemma LocalMoveFits(row: PlanRow, holder: Option<Worker>, clock: int, owner: Token, w: Option<Worker>, action: Action)
    requires RowInv(row) && RowFits(row, holder) && IsLocal(action)
    requires w.Some? ==> WorkerFits(w.value, row, holder)
    requires row.leaseOwner == Some(owner) ==> w.Some? && holder == w && HolderFits(w.value, row.ops)
    requires row.leaseOwner.None? ==> holder.None?
    requires WorkerMove(row, clock, owner, w, action).Some?
    ensures var (row', w') := WorkerMove(row, clock, owner, w, action).value;
            var holder' := HolderAfter(row', owner, w', holder);
            && row' == row && RowFits(row', holder') && WorkerFits(w', row', holder')
            && (row'.leaseOwner == Some(owner) ==> HolderFits(w', row'.ops))
            && Progress(row, holder, row', holder')
  {
    hide ClaimPlan, ClaimOperation, RecordReceipt, RowInv, GuardOver, NoneIssued, SomeReplay, SomeDone, OnlyFirst,
         Tried, FinalMeansStuck;
    if action.CheckGuard? { GuardMeansNoneIssued(w.value.status, row.ops); }
  }

  lemma WorkerMoveFits(
    row: PlanRow, holder: Option<Worker>, clock: int, owner: Token, w: Option<Worker>, action: Action)
    requires RowInv(row) && RowFits(row, holder)
    requires w.Some? ==> WorkerFits(w.value, row, holder) && WorkerInv(w.value)
    requires row.leaseOwner == Some(owner) ==> w.Some? && holder == w && HolderFits(w.value, row.ops)
    requires row.leaseOwner.None? ==> holder.None?
    requires WorkerMove(row, clock, owner, w, action).Some?
    ensures var (row', w') := WorkerMove(row, clock, owner, w, action).value;
            var holder' := HolderAfter(row', owner, w', holder);
            && RowFits(row', holder') && WorkerFits(w', row', holder')
            && (row'.leaseOwner == Some(owner) ==> HolderFits(w', row'.ops))
            && Progress(row, holder, row', holder')
  {
    hide RowFits, HolderFits, RowInv, Progress, NoneIssued, ConfirmIsOver, PersistedAggregate, CanTransition;
    match action
    case ConfirmClaim(now, seconds) => ClaimPlanFits(row, holder, owner, now, seconds, false);
    case ResumeClaim(now, seconds) => ClaimPlanFits(row, holder, owner, now, seconds, true);
    case ClaimOp(token, seconds) => ClaimOperationFits(row, owner, w.value, token, clock, seconds);
    case Record =>
      ReceiptFits(row, w.value, owner, clock);
      LeaseAfterReceipt(row, w.value, owner, clock);
    case _ => LocalMoveFits(row, holder, clock, owner, w, action);
  }

  lemma LeaseAfterReceipt(row: PlanRow, w: Worker, owner: Token, now: int)
    requires w.Returned? && RecordReceipt(row, w.next, ReceiptOf(w), Some(owner), Some(w.token), now).Success?
    ensures var row' := RecordReceipt(row, w.next, ReceiptOf(w), Some(owner), Some(w.token), now).value;
            row.leaseOwner == Some(owner) && (row'.leaseOwner == Some(owner) || row'.leaseOwner == None)
  {
    hide PersistedAggregate, CanTransition;
  }

  // ---- A reconciler's steps -----------------------------------------------------------

  /** The verdict that is due is one of a reconciler that fits. */
  predicate VerdictFits(rows: seq<OpRow>, i: nat, verdict: ApplyStatus, ops: seq<OpRow>) {
    && i < |rows| == |ops| && rows[i].attempt <= ops[i].attempt
    && verdict in {PlanStatus.Applied, PlanStatus.Conflict, PlanStatus.Unknown, PlanStatus.RetryableNotApplied}
    && (verdict == RetryableNotApplied <==> rows[i].attempt == 0)
  }

  ghost predicate ScannedUpTo(ops: seq<OpRow>, i: nat) {
    !NoneIssued(ops) ==> forall k | 0 <= k < i && k < |ops| :: Settled(ops[k].status)
  }

  lemma VerdictChange(row: PlanRow, rows: seq<OpRow>, i: nat, verdict: ApplyStatus)
    requires RowInv(row) && VerdictFits(rows, i, verdict, row.ops)
    requires RecordReconciliation(row, i, VerdictReceipt(rows[i], verdict)).Success?
    ensures var row' := RecordReconciliation(row, i, VerdictReceipt(rows[i], verdict)).value;
            && Reconcilable(row.ops[i].status) && row'.ops == row.ops[i := row'.ops[i]]
            && row'.ops[i].status == verdict && row'.ops[i].attempt == row.ops[i].attempt
            && row'.status !in {Issued, Expired, Rejected, Executing}
            && (row'.status == RetryableNotApplied ==>
                  row'.ops[0].status in {Issued, Executing, Rejected, RetryableNotApplied})
            && (row'.status == Conflict ==> exists k :: 0 <= k < |row.ops| && row'.ops[k].status == Conflict)
            && (row'.status == Conflict || row'.status == RetryableNotApplied ==> !SomeDone(row'.ops))
            && row'.leaseOwner == row.leaseOwner == None
  {
    hide PersistedAggregate, NoHiddenPartialWrite, OpInv;
    var row' := RecordReconciliation(row, i, VerdictReceipt(rows[i], verdict)).value;
    var statuses := WithOpStatus(row, i, verdict);
    StatusesAreKnown(row, i, verdict);
    AggregateTells(statuses, i);
    AggregateTells(statuses, 0);
    if row'.status == Conflict {
      var k :| 0 <= k < |statuses| && statuses[k] == Conflict;
      assert row'.ops[k].status == Conflict;
    }
    if row'.status == Conflict || row'.status == RetryableNotApplied {
      forall k | 0 <= k < |row.ops| ensures !IsSuccess(row'.ops[k].status) {
        AggregateTells(statuses, k);
        assert statuses[k] == row'.ops[k].status;
      }
    }
  }

  /** A verdict for an operation behind the first, while nothing has succeeded. */
  lemma LaterVerdict(row: PlanRow, rows: seq<OpRow>, i: nat, verdict: ApplyStatus)
    requires RowFits(row, None) && Reconciling(row, None) && VerdictFits(rows, i, verdict, row.ops)
    requires ScannedUpTo(row.ops, i) && Reconcilable(row.ops[i].status) && i > 0 && !SomeDone(row.ops)
    ensures verdict == RetryableNotApplied && Settled(row.ops[0].status) && row.ops[0].status != Rejected
  {
    hide SomeReplay, SomeDone;
    assert row.ops[i].status == Issued;
  }

  lemma VerdictOps(row: PlanRow, rows: seq<OpRow>, i: nat, verdict: ApplyStatus)
    requires RowInv(row) && RowFits(row, None) && Reconciling(row, None) && VerdictFits(rows, i, verdict, row.ops)
    requires ScannedUpTo(row.ops, i)
    requires RecordReconciliation(row, i, VerdictReceipt(rows[i], verdict)).Success?
    ensures var row' := RecordReconciliation(row, i, VerdictReceipt(rows[i], verdict)).value;
            && Tried(row'.ops) && OnlyFirst(row'.ops)
            && (row'.status == RetryableNotApplied ==> row'.ops[0].status == RetryableNotApplied)
            && (!SomeDone(row'.ops) && row'.ops[0].status == Rejected ==> row'.status == Rejected)
            && FinalMeansStuck(row')
  {
    var row' := RecordReconciliation(row, i, VerdictReceipt(rows[i], verdict)).value;
    VerdictChange(row, rows, i, verdict);
    DoneStays(row.ops, i, row'.ops[i]);
    hide RecordReconciliation, RowInv, SomeDone, SomeReplay, ConfirmIsOver, ScannedUpTo;
    if i > 0 && !SomeDone(row.ops) { LaterVerdict(row, rows, i, verdict); }
    if row'.status == Conflict {
      var k :| 0 <= k < |row.ops| && row'.ops[k].status == Conflict;
    }
  }

  lemma VerdictProgress(row: PlanRow, rows: seq<OpRow>, i: nat, verdict: ApplyStatus)
    requires RowInv(row) && RowFits(row, None) && Reconciling(row, None) && VerdictFits(rows, i, verdict, row.ops)
    requires ScannedUpTo(row.ops, i)
    requires RecordReconciliation(row, i, VerdictReceipt(rows[i], verdict)).Success?
    ensures var row' := RecordReconciliation(row, i, VerdictReceipt(rows[i], verdict)).value;
            && Progress(row, None, row', None) && ConfirmIsOver(row', None) && ScannedUpTo(row'.ops, i + 1)
  {
    VerdictChange(row, rows, i, verdict);
    if IsFinal(row.status) { VerdictKeepsFinal(row, rows, i, verdict); }
    hide RecordReconciliation, RowInv, SomeDone, SomeReplay;
  }

  lemma VerdictKeepsFinal(row: PlanRow, rows: seq<OpRow>, i: nat, verdict: ApplyStatus)
    requires RowInv(row) && RowFits(row, None) && Reconciling(row, None) && VerdictFits(rows, i, verdict, row.ops)
    requires RecordReconciliation(row, i, VerdictReceipt(rows[i], verdict)).Success? && IsFinal(row.status)
    ensures RecordReconciliation(row, i, VerdictReceipt(rows[i], verdict)).value.status == row.status
  {
    DoneMeansSucceeded(row);
    if row.status == Conflict {
      hide PersistedAggregate, ConfirmIsOver;
      AggregateOfFirst(WithOpStatus(row, i, verdict));
    }
  }

  lemma VerdictMoveFits(row: PlanRow, rows: seq<OpRow>, i: nat, verdict: ApplyStatus)
    requires RowInv(row) && RowFits(row, None) && Reconciling(row, None) && VerdictFits(rows, i, verdict, row.ops)
    requires ScannedUpTo(row.ops, i)
    requires RecordReconciliation(row, i, VerdictReceipt(rows[i], verdict)).Success?
    ensures var row' := RecordReconciliation(row, i, VerdictReceipt(rows[i], verdict)).value;
            && RowFits(row', None) && Progress(row, None, row', None) && ConfirmIsOver(row', None)
            && ScannedUpTo(row'.ops, i + 1) && row'.leaseOwner == None
  {
    VerdictOps(row, rows, i, verdict);
    VerdictProgress(row, rows, i, verdict);
    VerdictChange(row, rows, i, verdict);
    hide RecordReconciliation, RowInv, SomeDone, SomeReplay, ConfirmIsOver, ScannedUpTo, Tried, OnlyFirst,
         FinalMeansStuck, NoneIssued;
  }

  lemma FenceFits(row: PlanRow, holder: Option<Worker>, now: int)
    requires RowInv(row) && RowFits(row, holder) && BeginReconcile(row, now).Success?
    requires row.leaseOwner.None? ==> holder.None?
    ensures var row' := BeginReconcile(row, now).value;
            && row'.leaseOwner == None && RowFits(row', None) && Progress(row, holder, row', None)
            && (row.status in {Executing, Unknown, LegacyUnknown, Partial} ==> ConfirmIsOver(row', None))
  {
    hide NoHiddenPartialWrite, OpInv, SomeReplay, SomeDone;
  }

  lemma ReconcilerMoveFits(
    row: PlanRow, holder: Option<Worker>, clock: int, r: Option<Reconciler>, inspection: Inspection)
    requires RowInv(row) && RowFits(row, holder)
    requires r.Some? ==> ReconcilerFits(r.value, row, holder)
    requires row.leaseOwner.None? ==> holder.None?
    requires ReconcilerMove(row, clock, r, inspection).Some?
    ensures var (row', r') := ReconcilerMove(row, clock, r, inspection).value;
            var holder' := if row'.leaseOwner.None? then None else holder;
            && RowFits(row', holder') && ReconcilerFits(r', row', holder') && Progress(row, holder, row', holder')
            && (row'.leaseOwner.Some? ==> row' == row)
  {
    match inspection
    case Fence => hide RowFits, ConfirmIsOver, Progress, RowInv; FenceFits(row, holder, clock);
    case RecordVerdict => RecordVerdictFits(row, holder, clock, r);
    case _ => InspectionFits(row, holder, clock, r, inspection);
  }

  lemma RecordVerdictFits(row: PlanRow, holder: Option<Worker>, clock: int, r: Option<Reconciler>)
    requires RowInv(row) && RowFits(row, holder)
    requires r.Some? ==> ReconcilerFits(r.value, row, holder)
    requires row.leaseOwner.None? ==> holder.None?
    requires ReconcilerMove(row, clock, r, RecordVerdict).Some?
    ensures var (row', r') := ReconcilerMove(row, clock, r, RecordVerdict).value;
            && row'.leaseOwner == None && holder == None
            && RowFits(row', None) && ReconcilerFits(r', row', None) && Progress(row, None, row', None)
  {
    hide RowFits, ConfirmIsOver, RowInv, RecordReconciliation, NoneIssued;
    var rows, next := r.value.rows, r.value.next;
    var verdict := if r.value.Observed? then r.value.verdict else RetryableNotApplied;
    UnleasedForVerdict(row, next, VerdictReceipt(rows[next], verdict));
    assert ScannedUpTo(row.ops, next);
    VerdictMoveFits(row, rows, next, verdict);
    var (row', r') := ReconcilerMove(row, clock, r, RecordVerdict).value;
    ScanContinues(r.value, row.ops, row'.ops, next);
  }

  lemma UnleasedForVerdict(row: PlanRow, i: nat, receipt: Receipt)
    requires RecordReconciliation(row, i, receipt).Success?
    ensures row.leaseOwner == None
  {
  }

  lemma ScanContinues(r: Reconciler, ops: seq<OpRow>, ops': seq<OpRow>, next: nat)
    requires (r.Scanning? || r.Observed?) && r.next == next && SnapshotFits(r, ops) && ScanFits(r, ops)
             && |ops'| == |ops|
    requires forall i | 0 <= i < |ops| :: ops[i].attempt <= ops'[i].attempt
    requires NoneIssued(ops) ==> NoneIssued(ops')
    requires !NoneIssued(ops') ==> forall i | 0 <= i < |ops| && Settled(ops[i].status) :: Settled(ops'[i].status)
    requires ScannedUpTo(ops', next + 1)
    ensures SnapshotFits(Scanning(r.rows, next + 1), ops') && ScanFits(Scanning(r.rows, next + 1), ops')
  {
    hide NoneIssued;
  }

  /** A plan that no executor holds is UNKNOWN only after confirming is over, and PARTIAL only after a
      success; the one that an executor holds is PARTIAL. */
  lemma ReconcilingRow(row: PlanRow, holder: Option<Worker>)
    requires RowInv(row) && MayReconcile(row.status) && (row.leaseOwner.None? ==> holder.None?)
    ensures Reconciling(row, holder)
  {
    if row.status == Partial { PartialMeansDone(row); }
  }

  lemma NoProgress(row: PlanRow, holder: Option<Worker>)
    ensures Progress(row, holder, row, holder)
  {
  }

  lemma SnapshotOfNow(row: PlanRow)
    requires Tried(row.ops) && forall op | op in row.ops :: OpInv(op)
    ensures SnapshotFits(Scanning(row.ops, 0), row.ops) && ScanFits(Scanning(row.ops, 0), row.ops)
  {
    hide NoneIssued;
    forall i | 0 <= i < |row.ops| ensures row.ops[i].status != LegacyUnknown { assert row.ops[i] in row.ops; }
  }

  /** A reconciler passes a row that is settled, or asks the backend about one. */
  lemma ScanMoveFits(row: PlanRow, clock: int, r: Reconciler, inspection: Inspection)
    requires SnapshotFits(r, row.ops) && ScanFits(r, row.ops) && (inspection.SkipRow? || inspection.Observe?)
    requires ReconcilerMove(row, clock, Some(r), inspection).Some?
    ensures var (row', r') := ReconcilerMove(row, clock, Some(r), inspection).value;
            row' == row && SnapshotFits(r', row.ops) && ScanFits(r', row.ops) && Onward(r) && Onward(r')
  {
    hide RecordMove, NoneIssued, BeginReconcile;
  }

  lemma InspectionFits(row: PlanRow, holder: Option<Worker>, clock: int, r: Option<Reconciler>, inspection: Inspection)
    requires RowInv(row) && RowFits(row, holder) && !inspection.Fence? && !inspection.RecordVerdict?
    requires r.Some? ==> ReconcilerFits(r.value, row, holder)
    requires row.leaseOwner.None? ==> holder.None?
    requires ReconcilerMove(row, clock, r, inspection).Some?
    ensures var (row', r') := ReconcilerMove(row, clock, r, inspection).value;
            row' == row && ReconcilerFits(r', row, holder) && Progress(row, holder, row', holder)
  {
    NoProgress(row, holder);
    hide Progress, Reconciling, NoneIssued, SomeDone, OnlyFirst, FinalMeansStuck, SomeReplay;
    match inspection
    case CheckStatus => if MayReconcile(row.status) { ReconcilingRow(row, holder); }
    case ReadSnapshot => SnapshotOfNow(row);
    case Quit =>
    case Fence =>
    case RecordVerdict =>
    case _ =>
      ScanMoveFits(row, clock, r.value, inspection);
      hide SnapshotFits, ScanFits, ReconcilerMove;
  }

  // ---- The whole system ---------------------------------------------------------------------

  lemma InitIsCoherent(s: Sys)
    requires Init(s)
    ensures Coherent(s)
  {
    InitIsSafe(s);
    forall i | 0 <= i < |s.row.ops| ensures s.row.ops[i].status == Issued && s.row.ops[i].attempt == 0 {
      assert s.row.ops[i] in s.row.ops;
    }
  }

  lemma WorkEffect(s: Sys, owner: Token, action: Action, s': Sys)
    requires Apply(s, Work(owner, action)) == Some(s')
    ensures WorkerMove(s.row, s.clock, owner, WorkerOf(s, owner), action).Some?
    ensures var (row', w') := WorkerMove(s.row, s.clock, owner, WorkerOf(s, owner), action).value;
            && s'.row == row' && s'.workers == s.workers[owner := w'] && s'.reconcilers == s.reconcilers
            && s'.clock == s.clock
            && s'.calls == if action.CallAdapter? then CountCall(s.calls, w') else s.calls
  {
    hide WorkerMove;
  }

  lemma ReconcileEffect(s: Sys, rid: nat, inspection: Inspection, s': Sys)
    requires Apply(s, Reconcile(rid, inspection)) == Some(s')
    ensures ReconcilerMove(s.row, s.clock, ReconcilerOf(s, rid), inspection).Some?
    ensures var (row', r') := ReconcilerMove(s.row, s.clock, ReconcilerOf(s, rid), inspection).value;
            s' == s.(row := row', reconcilers := s.reconcilers[rid := r'])
  {
    hide ReconcilerMove;
  }

  /** What a step keeps for everybody else. */
  ghost predicate Moves(s: Sys, s': Sys) {
    Progress(s.row, Holder(s), s'.row, Holder(s'))
  }

  lemma WorkKeepsCoherent(s: Sys, owner: Token, action: Action, s': Sys)
    requires Coherent(s) && Apply(s, Work(owner, action)) == Some(s')
    ensures Coherent(s') && Moves(s, s')
  {
    hide Apply, WorkerMove, RowFits, HolderFits, WorkerFits, ReconcilerFits, RowInv;
    WorkEffect(s, owner, action, s');
    WorkKeepsSafe(s, owner, action, s');
    var w := WorkerOf(s, owner);
    var (row', w') := WorkerMove(s.row, s.clock, owner, w, action).value;
    WorkerMoveIsSafe(s.row, s.clock, owner, w, action);
    WorkerMoveFits(s.row, Holder(s), s.clock, owner, w, action);
    var holder' := HolderAfter(row', owner, w', Holder(s));
    LeaseMoves(s.row, owner, w, row', w');
    assert Holder(s') == holder';
    OthersStillFit(s.row, Holder(s), row', holder');
    OpsWithoutLease(s.row, s.clock, owner, w, action);
  }

  lemma LeaseMoves(row: PlanRow, owner: Token, w: Option<Worker>, row': PlanRow, w': Worker)
    requires WorkerMoveSafe(owner, row, w, row', w')
    ensures row'.leaseOwner == row.leaseOwner || row'.leaseOwner == None || row'.leaseOwner == Some(owner)
  {
  }

  /** Only the lease holder changes operations. */
  lemma OpsWithoutLease(row: PlanRow, clock: int, owner: Token, w: Option<Worker>, action: Action)
    requires WorkerMove(row, clock, owner, w, action).Some?
    ensures row.leaseOwner != Some(owner) ==> WorkerMove(row, clock, owner, w, action).value.0.ops == row.ops
  {
    hide PersistedAggregate, CanTransition;
  }

  lemma ReconcileKeepsCoherent(s: Sys, rid: nat, inspection: Inspection, s': Sys)
    requires Coherent(s) && Apply(s, Reconcile(rid, inspection)) == Some(s')
    ensures Coherent(s') && Moves(s, s')
  {
    hide Apply, ReconcilerMove, WorkerMove, RowFits, HolderFits, WorkerFits, ReconcilerFits, RowInv;
    ReconcileEffect(s, rid, inspection, s');
    StepKeepsSafe(s, Reconcile(rid, inspection), s');
    ReconcilerMoveFits(s.row, Holder(s), s.clock, ReconcilerOf(s, rid), inspection);
    var holder' := if s'.row.leaseOwner.None? then None else Holder(s);
    assert Holder(s') == holder';
    OthersStillFit(s.row, Holder(s), s'.row, holder');
  }

  lemma ExpireKeepsCoherent(s: Sys, s': Sys)
    requires Coherent(s) && Apply(s, Expire) == Some(s')
    ensures Coherent(s') && Moves(s, s')
  {
    StepKeepsSafe(s, Expire, s');
    forall i | 0 <= i < |s.row.ops| ensures s.row.ops[i].status == Issued { AllIssuedAt(s.row, i); }
  }

  lemma StepKeepsCoherent(s: Sys, step: Step, s': Sys)
    requires Coherent(s) && Apply(s, step) == Some(s')
    ensures Coherent(s') && Moves(s, s')
  {
    hide WorkerMove, ReconcilerMove, RowFits, HolderFits, WorkerFits, ReconcilerFits, RowInv;
    match step
    case Tick(_) => NoProgress(s.row, Holder(s));
    case Expire => ExpireKeepsCoherent(s, s');
    case Work(owner, action) => WorkKeepsCoherent(s, owner, action, s');
    case Reconcile(rid, inspection) => ReconcileKeepsCoherent(s, rid, inspection, s');
  }

  lemma {:induction false} RunKeepsCoherent(s: Sys, steps: seq<Step>, s': Sys)
    requires Coherent(s) && Run(s, steps) == Some(s')
    ensures Coherent(s') && (IsFinal(s.row.status) ==> s'.row.status == s.row.status)
  {
    if steps != [] {
      hide Apply, Coherent;
      var middle := Run(s, steps[..|steps| - 1]).value;
      RunKeepsCoherent(s, steps[..|steps| - 1], middle);
      StepKeepsCoherent(middle, steps[|steps| - 1], s');
    }
  }
}
