/** The invariant that every run keeps, however stale the guards and snapshots it acts on: who can
    still be about, and what the operations look like while nothing has succeeded. */
module ProtocolCoherence {
  import opened Wrappers
  import opened WritePlans
  import opened PlanRows
  import opened WriteProtocol
  import opened ProtocolSafety

  predicate IsOpen(status: PlanStatus) {
    status == Issued || status == RetryableNotApplied
  }

  ghost predicate NoneIssued(ops: seq<OpRow>) {
    forall i | 0 <= i < |ops| :: ops[i].status != Issued
  }

  ghost predicate SomeReplay(ops: seq<OpRow>) {
    exists i :: 0 <= i < |ops| && ops[i].status == RetryableNotApplied
  }

  ghost predicate SomeDone(ops: seq<OpRow>) {
    exists i :: 0 <= i < |ops| && IsSuccess(ops[i].status)
  }

  predicate InLoop(w: Worker) {
    w.Claimed? || w.Looping? || w.Dispatching? || w.Calling? || w.Returned?
  }

  predicate Confirming(w: Worker) {
    InLoop(w) && w.claimable == Issued
  }

  predicate Resuming(w: Worker) {
    InLoop(w) && w.claimable == RetryableNotApplied
  }

  predicate PastGuard(w: Worker) {
    w.GuardPassed? || Resuming(w)
  }

  /** The reconciler goes on to write verdicts. */
  predicate Onward(r: Reconciler) {
    r.Cleared? || r.Scanning? || r.Observed?
  }

  /** What a verdict finds: confirming is over, or some operation has succeeded already. */
  ghost predicate Reconciling(row: PlanRow, holder: Option<Worker>) {
    ConfirmIsOver(row, holder) || SomeDone(row.ops)
  }

  /** No confirming executor is left, nor can there be one again. */
  ghost predicate ConfirmIsOver(row: PlanRow, holder: Option<Worker>) {
    && row.status != Issued && row.status != Expired
    && (holder.Some? ==> !Confirming(holder.value))
    && (!NoneIssued(row.ops) ==> row.status != Executing && row.status != Rejected)
  }

  ghost predicate Tried(ops: seq<OpRow>) {
    forall i | 0 <= i < |ops| ::
      && (ops[i].status == Issued ==> ops[i].attempt == 0)
      && (!IsOpen(ops[i].status) ==> ops[i].attempt > 0)
  }

  /** What a final plan status that is not a success says about the operations. */
  ghost predicate FinalMeansStuck(row: PlanRow) {
    && (row.status == Conflict ==> |row.ops| > 0 && row.ops[0].status == Conflict)
    && (row.status == Rejected ==>
          |row.ops| > 0 && row.ops[0].status == Rejected
          && forall i | 1 <= i < |row.ops| :: row.ops[i].status == Issued)
  }

  /** Until something has succeeded, only the first operation is ever dispatched. */
  ghost predicate OnlyFirst(ops: seq<OpRow>) {
    !SomeDone(ops) ==> forall i | 1 <= i < |ops| :: IsOpen(ops[i].status)
  }

  ghost predicate RowFits(row: PlanRow, holder: Option<Worker>) {
    && |row.ops| > 0
    && Tried(row.ops)
    && OnlyFirst(row.ops)
    && (row.status == RetryableNotApplied ==> row.ops[0].status == RetryableNotApplied)
    && (!SomeDone(row.ops) && row.ops[0].status == Rejected ==> row.status == Rejected)
    && FinalMeansStuck(row)
    && (SomeReplay(row.ops) ==> ConfirmIsOver(row, holder))
  }

  ghost predicate WorkerFits(w: Worker, row: PlanRow, holder: Option<Worker>) {
    && (InLoop(w) ==> Confirming(w) || Resuming(w))
    && (PastGuard(w) ==> NoneIssued(row.ops) && ConfirmIsOver(row, holder))
  }

  /** The operation that the lease holder is dispatching is its own. */
  predicate IsMine(w: Worker, ops: seq<OpRow>)
    requires w.Dispatching? || w.Calling? || w.Returned?
  {
    && w.next < |ops| && ops[w.next].status == Executing
    && ops[w.next].attempt == w.attempt && ops[w.next].attemptToken == Some(w.token)
  }

  /** The lease holder: until something has succeeded, it is at the first operation. */
  ghost predicate HolderFits(w: Worker, ops: seq<OpRow>) {
    && (w.Claimed? && !SomeDone(ops) ==> |ops| > 0 && ops[0].status == w.claimable)
    && (w.Looping? ==> |w.snapshot| == |ops| > 0 && (!SomeDone(ops) ==> w.next == 0 && w.snapshot[0] == w.claimable))
    && (w.Dispatching? || w.Calling? || w.Returned? ==>
          |w.snapshot| == |ops| && IsMine(w, ops) && (!SomeDone(ops) ==> w.next == 0))
  }

  predicate Settled(status: PlanStatus) {
    status != Issued && status != Executing
  }

  ghost predicate SnapshotFits(r: Reconciler, ops: seq<OpRow>) {
    r.Scanning? || r.Observed? ==>
      && |r.rows| == |ops|
      && (forall i | 0 <= i < |ops| ::
            && r.rows[i].attempt <= ops[i].attempt
            && (r.rows[i].status == Issued ==> r.rows[i].attempt == 0)
            && (Unresolved(r.rows[i].status) ==> r.rows[i].attempt > 0))
      && (r.Observed? ==>
            r.next < |r.rows| && r.rows[r.next].attempt > 0 && r.verdict in {Applied, Conflict, Unknown})
  }

  /** While some operation was never reached, what a reconciler has passed or seen settled is settled. */
  ghost predicate ScanFits(r: Reconciler, ops: seq<OpRow>) {
    (r.Scanning? || r.Observed?) && !NoneIssued(ops) ==>
      forall i | 0 <= i < |ops| && i < |r.rows| && (i < r.next || Settled(r.rows[i].status)) :: Settled(ops[i].status)
  }

  ghost predicate ReconcilerFits(r: Reconciler, row: PlanRow, holder: Option<Worker>) {
    && SnapshotFits(r, row.ops) && ScanFits(r, row.ops)
    && (Onward(r) ==> Reconciling(row, holder))
  }

  function Holder(s: Sys): Option<Worker> {
    if s.row.leaseOwner.Some? then WorkerOf(s, s.row.leaseOwner.value) else None
  }

  ghost predicate Coherent(s: Sys) {
    && Safe(s)
    && RowFits(s.row, Holder(s))
    && (Holder(s).Some? ==> HolderFits(Holder(s).value, s.row.ops))
    && (forall o | o in s.workers :: WorkerFits(s.workers[o], s.row, Holder(s)))
    && (forall r | r in s.reconcilers :: ReconcilerFits(s.reconcilers[r], s.row, Holder(s)))
  }

  /** How a step may change what the other calls rely on. */
  ghost predicate Progress(row: PlanRow, holder: Option<Worker>, row': PlanRow, holder': Option<Worker>) {
    && |row'.ops| == |row.ops|
    && (forall i | 0 <= i < |row.ops| :: row.ops[i].attempt <= row'.ops[i].attempt)
    && (NoneIssued(row.ops) ==> NoneIssued(row'.ops))
    && (ConfirmIsOver(row, holder) ==> ConfirmIsOver(row', holder'))
    && (SomeDone(row.ops) ==> SomeDone(row'.ops))
    && (!NoneIssued(row'.ops) ==>
          forall i | 0 <= i < |row.ops| && Settled(row.ops[i].status) :: Settled(row'.ops[i].status))
    && (IsFinal(row.status) ==> row'.status == row.status)
  }

  lemma OthersStillFit(row: PlanRow, holder: Option<Worker>, row': PlanRow, holder': Option<Worker>)
    requires Progress(row, holder, row', holder')
    ensures forall w :: WorkerFits(w, row, holder) ==> WorkerFits(w, row', holder')
    ensures forall r :: ReconcilerFits(r, row, holder) ==> ReconcilerFits(r, row', holder')
  {
    hide ConfirmIsOver;
    forall r | ReconcilerFits(r, row, holder) ensures ReconcilerFits(r, row', holder') {
      if (r.Scanning? || r.Observed?) && !NoneIssued(row'.ops) {
        assert ScanFits(r, row.ops);
      }
    }
  }

  lemma DoneMeansSucceeded(row: PlanRow)
    ensures SomeDone(row.ops) <==> SomeSucceeded(row)
  {
    if SomeSucceeded(row) {
      var op :| op in row.ops && IsSuccess(op.status);
      var i :| 0 <= i < |row.ops| && row.ops[i] == op;
      assert IsSuccess(row.ops[i].status);
    }
  }

  // ---- Aggregates -----------------------------------------------------------

  /** The aggregate while only the first operation carries a result. */
  lemma AggregateOfFirst(statuses: seq<PlanStatus>)
    requires |statuses| > 0 && statuses[0] in {Rejected, Conflict, Unknown}
    requires forall i | 1 <= i < |statuses| :: IsOpen(statuses[i])
    ensures PersistedAggregate(statuses) ==
            if statuses[0] != Rejected then statuses[0]
            else if exists i :: 1 <= i < |statuses| && statuses[i] == RetryableNotApplied then RetryableNotApplied
            else Rejected
  {
    assert statuses[0] in statuses;
    forall st | st in statuses ensures st == statuses[0] || IsOpen(st) {
      var i :| 0 <= i < |statuses| && statuses[i] == st;
    }
    if i :| 1 <= i < |statuses| && statuses[i] == RetryableNotApplied { assert statuses[i] in statuses; }
    if i :| 1 <= i < |statuses| && statuses[i] == Issued { assert statuses[i] in statuses; }
  }

  /** What an aggregate says about the operations it was computed from. */
  lemma AggregateTells(statuses: seq<PlanStatus>, i: nat)
    requires i < |statuses|
    requires forall k | 0 <= k < |statuses| :: statuses[k] !in {Partial, LegacyUnknown, Expired}
    ensures var a := PersistedAggregate(statuses);
            && (statuses[i] in {Applied, Unknown, Conflict, RetryableNotApplied} ==> a != Rejected && a != Executing)
            && (a == RetryableNotApplied ==> statuses[i] in {Issued, Executing, Rejected, RetryableNotApplied})
            && (a == Conflict ==> exists k :: 0 <= k < |statuses| && statuses[k] == Conflict)
            && (a in {Conflict, RetryableNotApplied, Rejected, Unknown, Executing} ==> !IsSuccess(statuses[i]))
            && a != Issued && a != Expired
  {
    assert statuses[i] in statuses;
    if a :| a in statuses && a == Conflict { assert exists k :: 0 <= k < |statuses| && statuses[k] == Conflict; }
    forall st | st in statuses ensures st !in {Partial, LegacyUnknown, Expired} {
      var k :| 0 <= k < |statuses| && statuses[k] == st;
    }
  }

  lemma StatusesAreKnown(row: PlanRow, i: nat, status: PlanStatus)
    requires RowInv(row) && i < |row.ops| && status !in {Partial, LegacyUnknown, Expired}
    ensures forall k | 0 <= k < |row.ops| :: WithOpStatus(row, i, status)[k] !in {Partial, LegacyUnknown, Expired}
  {
    forall k | 0 <= k < |row.ops| ensures WithOpStatus(row, i, status)[k] !in {Partial, LegacyUnknown, Expired} {
      assert row.ops[k] in row.ops;
    }
  }
}
