/** What holds of every run: final statuses are final, and which receipts are refused. */
module ProtocolTheorems {
  import opened Wrappers
  import opened WritePlans
  import opened PlanRows
  import opened WriteProtocol
  import opened ProtocolSafety
  import opened ProtocolCoherence
  import opened CoherentSteps

  /** APPLIED, ALREADY_APPLIED, REJECTED, CONFLICT and EXPIRED plans keep their status for ever,
      whatever confirm, reconcile and resume calls still run. */
  lemma FinalStatusIsForEver(start: Sys, before: seq<Step>, s: Sys, after: seq<Step>, s': Sys)
    requires Init(start) && Run(start, before) == Some(s) && Run(s, after) == Some(s')
    requires IsFinal(s.row.status)
    ensures s'.row.status == s.row.status
  {
    InitIsCoherent(start);
    RunKeepsCoherent(start, before, s);
    RunKeepsCoherent(s, after, s');
  }

  // ---- Refused receipts -------------------------------------------------------

  /** The worker has its adapter's answer and still holds the live lease. */
  predicate AboutToRecord(s: Sys, owner: Token) {
    && owner in s.workers && s.workers[owner].Returned?
    && s.row.leaseOwner == Some(owner) && LeaseLive(s.row, s.clock)
  }

  /** The last receipt of a plan of two or more operations that were all already applied. */
  ghost predicate CompletesAlreadyApplied(row: PlanRow, w: Worker)
    requires w.Returned?
  {
    && |row.ops| >= 2 && w.result == AlreadyApplied
    && forall i | 0 <= i < |row.ops| && i != w.next :: row.ops[i].status == AlreadyApplied
  }

  /** A rejection of the first operation of a resumed plan of two or more operations. */
  predicate RejectsResumedPlan(row: PlanRow, w: Worker)
    requires w.Returned?
  {
    |row.ops| >= 2 && row.status == Executing && w.claimable != Issued && w.result == Rejected
  }

  lemma RefusalWhenPartial(row: PlanRow, w: Worker, owner: Token, now: int)
    requires RowInv(row) && w.Returned? && AdapterResult(w.result) && row.status == Partial
    requires w.next < |row.ops| && row.ops[w.next].status == Executing
    requires ReceiptFenced(row, w.next, ReceiptOf(w), Some(owner), Some(w.token), now)
    ensures RecordReceipt(row, w.next, ReceiptOf(w), Some(owner), Some(w.token), now).Failure?
            <==> CompletesAlreadyApplied(row, w)
  {
    hide ReceiptFenced, LeaseLive;
    var statuses := WithOpStatus(row, w.next, w.result);
    var done :| done in row.ops && IsSuccess(done.status);
    var k :| 0 <= k < |row.ops| && row.ops[k] == done;
    assert k != w.next && IsSuccess(statuses[k]) && statuses[k] in statuses;
    forall i | 0 <= i < |statuses| ensures statuses[i] in statuses && statuses[i] != Partial {
      assert row.ops[i] in row.ops;
    }
    AggregateHidesNoSuccess(statuses);
    if CompletesAlreadyApplied(row, w) {
      assert forall st | st in statuses :: st == AlreadyApplied;
    }
    if PersistedAggregate(statuses) == AlreadyApplied {
      forall i | 0 <= i < |row.ops| && i != w.next ensures row.ops[i].status == AlreadyApplied {
        assert statuses[i] == AlreadyApplied;
      }
      assert statuses[w.next] == AlreadyApplied;
    }
  }

  /** While the plan is EXECUTING nothing has succeeded: its holder is at the first operation, and
      the others were never reached, or all reconciled. */
  lemma ExecutingHolderIsFirst(row: PlanRow, w: Worker)
    requires RowInv(row) && RowFits(row, Some(w)) && WorkerFits(w, row, Some(w)) && HolderFits(w, row.ops)
    requires w.Returned? && row.status == Executing
    ensures w.next == 0
    ensures forall i | 1 <= i < |row.ops| ::
              row.ops[i].status == if w.claimable == Issued then Issued else RetryableNotApplied
  {
    hide NoHiddenPartialWrite, OpInv;
    ExecutingMeansNothingDone(row);
    forall i | 1 <= i < |row.ops|
      ensures row.ops[i].status == if w.claimable == Issued then Issued else RetryableNotApplied
    {
      assert IsOpen(row.ops[i].status);
    }
  }

  lemma ExecutingMeansNothingDone(row: PlanRow)
    requires RowInv(row) && row.status == Executing
    ensures !SomeDone(row.ops)
  {
    DoneMeansSucceeded(row);
  }

  lemma RefusalWhenExecuting(row: PlanRow, w: Worker, owner: Token, now: int)
    requires RowInv(row) && RowFits(row, Some(w)) && WorkerFits(w, row, Some(w)) && HolderFits(w, row.ops)
    requires w.Returned? && AdapterResult(w.result) && row.status == Executing
    requires ReceiptFenced(row, w.next, ReceiptOf(w), Some(owner), Some(w.token), now)
    ensures RecordReceipt(row, w.next, ReceiptOf(w), Some(owner), Some(w.token), now).Failure?
            <==> RejectsResumedPlan(row, w)
    ensures !CompletesAlreadyApplied(row, w)
  {
    ExecutingHolderIsFirst(row, w);
    hide RowFits, RowInv, ReceiptFenced;
    var rest := if w.claimable == Issued then Issued else RetryableNotApplied;
    var statuses := WithOpStatus(row, 0, w.result);
    forall i | 0 <= i < |statuses|
      ensures statuses[i] in statuses && statuses[i] == if i == 0 then w.result else rest {}
    forall st | st in statuses ensures st == w.result || st == rest {}
    AggregateOfFirstAndRest(statuses, w.result, rest);
    if |row.ops| >= 2 {
      assert statuses[1] == row.ops[1].status == rest;
    }
  }

  lemma AggregateOfFirstAndRest(statuses: seq<PlanStatus>, first: PlanStatus, rest: PlanStatus)
    requires |statuses| > 0 && AdapterResult(first) && rest in {Issued, RetryableNotApplied}
    requires forall i | 0 <= i < |statuses| :: statuses[i] == if i == 0 then first else rest
    ensures PersistedAggregate(statuses) ==
            if |statuses| == 1 || first == Unknown || first == Conflict then first
            else if IsSuccess(first) then Partial
            else if rest == Issued then Rejected
            else RetryableNotApplied
  {
    assert statuses[0] in statuses;
    forall st | st in statuses ensures st == first || (|statuses| > 1 && st == rest) {}
    if |statuses| > 1 {
      assert statuses[1] in statuses;
    }
  }

  /** On every run, a correctly fenced receipt is refused in exactly two situations. */
  lemma FencedReceiptsRefusedExactly(start: Sys, steps: seq<Step>, s: Sys, owner: Token)
    requires Init(start) && Run(start, steps) == Some(s) && AboutToRecord(s, owner)
    ensures Apply(s, Work(owner, Record)).None?
            <==> CompletesAlreadyApplied(s.row, s.workers[owner]) || RejectsResumedPlan(s.row, s.workers[owner])
  {
    InitIsCoherent(start);
    RunKeepsCoherent(start, steps, s);
    HeldReceiptRefusedExactly(s, owner);
  }

  lemma HeldReceiptRefusedExactly(s: Sys, owner: Token)
    requires Coherent(s) && AboutToRecord(s, owner)
    ensures Apply(s, Work(owner, Record)).None?
            <==> CompletesAlreadyApplied(s.row, s.workers[owner]) || RejectsResumedPlan(s.row, s.workers[owner])
  {
    var w := s.workers[owner];
    RecordIsApplied(s, owner);
    HolderIsFenced(s, owner);
    assert WorkerFits(w, s.row, Holder(s));
    hide Apply, RecordReceipt, ReceiptFenced, RowFits, WorkerFits, HolderFits, ReconcilerFits,
         CompletesAlreadyApplied, OpInv;
    LeaseMeansRunning(s.row);
    if s.row.status == Partial {
      RefusalWhenPartial(s.row, w, owner, s.clock);
    } else {
      RefusalWhenExecuting(s.row, w, owner, s.clock);
    }
  }

  lemma LeaseMeansRunning(row: PlanRow)
    requires RowInv(row) && row.leaseOwner.Some?
    ensures row.status == Executing || row.status == Partial
  {
  }

  lemma HolderIsFenced(s: Sys, owner: Token)
    requires Coherent(s) && AboutToRecord(s, owner)
    ensures var w := s.workers[owner];
            && AdapterResult(w.result) && w.next < |s.row.ops| && s.row.ops[w.next].status == Executing
            && ReceiptFenced(s.row, w.next, ReceiptOf(w), Some(owner), Some(w.token), s.clock)
  {
    hide RowFits, ReconcilerFits, RowInv, WorkerMove, ReconcilerMove;
    assert WorkerInv(s.workers[owner]);
  }

  lemma RecordIsApplied(s: Sys, owner: Token)
    requires owner in s.workers && s.workers[owner].Returned?
    ensures var w := s.workers[owner];
            Apply(s, Work(owner, Record)).None?
            <==> RecordReceipt(s.row, w.next, ReceiptOf(w), Some(owner), Some(w.token), s.clock).Failure?
  {
    hide RecordReceipt, ReconcilerMove;
  }

  lemma RecordSucceeds(s: Sys, owner: Token, s': Sys)
    requires owner in s.workers && s.workers[owner].Returned?
    requires Apply(s, Work(owner, Record)) == Some(s')
    ensures var w := s.workers[owner];
            RecordReceipt(s.row, w.next, ReceiptOf(w), Some(owner), Some(w.token), s.clock) == Success(s'.row)
  {
    hide RecordReceipt, ReconcilerMove;
  }

  /** Which receipts are accepted, on every run: those of the holder of the live lease, but for the two
      refusals. An accepted one is of the latest attempt, and nothing but its operation is rewritten. */
  lemma ReceiptAcceptedExactly(start: Sys, steps: seq<Step>, s: Sys, owner: Token)
    requires Init(start) && Run(start, steps) == Some(s) && owner in s.workers && s.workers[owner].Returned?
    ensures var w, accepted := s.workers[owner], Apply(s, Work(owner, Record));
            && (accepted.Some? <==> && AboutToRecord(s, owner)
                                    && !CompletesAlreadyApplied(s.row, w) && !RejectsResumedPlan(s.row, w))
            && (accepted.Some? ==>
                  && w.next < |s.row.ops| && s.row.ops[w.next].status == Executing
                  && s.row.ops[w.next].attempt == w.attempt && s.row.ops[w.next].attemptToken == Some(w.token)
                  && accepted.value.row.ops
                     == s.row.ops[w.next := s.row.ops[w.next].(status := w.result, receipt := Some(ReceiptOf(w)))])
  {
    hide Apply, Init, CompletesAlreadyApplied, RejectsResumedPlan;
    var w, accepted := s.workers[owner], Apply(s, Work(owner, Record));
    if accepted.Some? {
      RecordSucceeds(s, owner, accepted.value);
      AcceptedReceiptIsFenced(s.row, w.next, ReceiptOf(w), owner, w.token, s.clock);
    }
    if AboutToRecord(s, owner) { FencedReceiptsRefusedExactly(start, steps, s, owner); }
  }

  /** In a confirm run the only receipt that can be refused is the last one of a plan of two or
      more operations that are all ALREADY_APPLIED. */
  lemma ConfirmReceiptsRefusedExactly(start: Sys, steps: seq<Step>, s: Sys, owner: Token)
    requires Init(start) && Run(start, steps) == Some(s) && AboutToRecord(s, owner)
    requires s.workers[owner].claimable == Issued
    ensures Apply(s, Work(owner, Record)).None? <==> CompletesAlreadyApplied(s.row, s.workers[owner])
  {
    FencedReceiptsRefusedExactly(start, steps, s, owner);
  }
}
