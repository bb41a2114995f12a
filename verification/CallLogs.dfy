/** What a confirm, resume or reconcile call reports: the operations that it dealt with, in order. */
module CallLogs {
  import opened WritePlans
  import opened PlanRows
  import opened WriteProtocol
  import opened ExecutorSteps

  /** One operation that was dispatched or ruled on, and the status that was recorded for it. */
  datatype Entry = Entry(index: nat, result: ApplyStatus)

  datatype Outcome = NotFound | MissingAdapter | ExpiredPlan | NotClaimed | TransitionError | Executed

  function Results(log: seq<Entry>): seq<ApplyStatus> {
    seq(|log|, k requires 0 <= k < |log| => log[k].result)
  }

  predicate Logged(log: seq<Entry>, i: nat) {
    exists k | 0 <= k < |log| :: log[k].index == i
  }

  predicate InPlanOrder(log: seq<Entry>) {
    forall k, l | 0 <= k < l < |log| :: log[k].index < log[l].index
  }

  /** The operations have the logged statuses, and those that are not in the log are as they were. */
  ghost predicate Settled(before: seq<OpRow>, after: seq<OpRow>, log: seq<Entry>) {
    && |after| == |before|
    && (forall k | 0 <= k < |log| :: log[k].index < |after| && after[log[k].index].status == log[k].result)
    && (forall i: nat | i < |before| && !Logged(log, i) :: after[i] == before[i])
  }

  lemma NothingSettled(ops: seq<OpRow>)
    ensures Settled(ops, ops, [])
  {
  }

  lemma ExtendSettled(
    before: seq<OpRow>, mid: seq<OpRow>, after: seq<OpRow>, log: seq<Entry>, i: nat, result: ApplyStatus)
    requires Settled(before, mid, log) && Wrote(mid, after, i, result) && !Logged(log, i)
    ensures Settled(before, after, log + [Entry(i, result)])
  {
    var log' := log + [Entry(i, result)];
    assert log'[|log|].index == i;
    forall j: nat | j < |before| && !Logged(log', j) ensures after[j] == before[j] {
      forall k | 0 <= k < |log| ensures log[k].index != j {
        assert log'[k].index != j;
      }
    }
  }

  // ---- Dispatches --------------------------------------------------------------

  /** The dispatched operations are open ones, in plan order, and only the last may have failed. */
  ghost predicate DispatchedInOrder(log: seq<Entry>, snapshot: seq<PlanStatus>, claimable: PlanStatus) {
    && (forall k | 0 <= k < |log| :: log[k].index < |snapshot| && snapshot[log[k].index] == claimable)
    && InPlanOrder(log)
    && (forall k | 0 <= k < |log| - 1 :: IsSuccess(log[k].result))
  }

  /** Nothing open was left out, except after a dispatch that did not succeed. */
  ghost predicate NothingSkipped(log: seq<Entry>, snapshot: seq<PlanStatus>, claimable: PlanStatus, upTo: nat) {
    forall i: nat | i < upTo && i < |snapshot| && snapshot[i] == claimable ::
      Logged(log, i) || (log != [] && !IsSuccess(log[|log| - 1].result) && log[|log| - 1].index < i)
  }

  /** Every dispatch so far succeeded, and every open operation before `upTo` was dispatched. */
  ghost predicate LoggedUpTo(log: seq<Entry>, snapshot: seq<PlanStatus>, claimable: PlanStatus, upTo: nat) {
    && DispatchedInOrder(log, snapshot, claimable) && NothingSkipped(log, snapshot, claimable, upTo)
    && (forall k | 0 <= k < |log| :: log[k].index < upTo && IsSuccess(log[k].result))
  }

  /** The log when the loop is at operation i, or has ended: `failed` says that its last dispatch did not succeed. */
  ghost predicate LogSoFar(
    log: seq<Entry>, snapshot: seq<PlanStatus>, claimable: PlanStatus, i: nat, outcome: Outcome, failed: bool)
  {
    && DispatchedInOrder(log, snapshot, claimable)
    && (outcome == Executed ==>
          if failed then NothingSkipped(log, snapshot, claimable, |snapshot|)
          else LoggedUpTo(log, snapshot, claimable, i))
  }

  lemma EmptyLog(snapshot: seq<PlanStatus>, claimable: PlanStatus)
    ensures LogSoFar([], snapshot, claimable, 0, Executed, false)
    ensures DispatchedInOrder([], snapshot, claimable)
  {
  }

  lemma SkippedInLog(log: seq<Entry>, snapshot: seq<PlanStatus>, claimable: PlanStatus, i: nat)
    requires LogSoFar(log, snapshot, claimable, i, Executed, false) && i < |snapshot| && snapshot[i] != claimable
    ensures LogSoFar(log, snapshot, claimable, i + 1, Executed, false)
  {
  }

  lemma ExtendLog(
    log: seq<Entry>, snapshot: seq<PlanStatus>, claimable: PlanStatus, i: nat, result: ApplyStatus, outcome: Outcome)
    requires LogSoFar(log, snapshot, claimable, i, Executed, false) && i < |snapshot| && snapshot[i] == claimable
    ensures !Logged(log, i)
    ensures if outcome == Executed then
              LogSoFar(log + [Entry(i, result)], snapshot, claimable, i + 1, outcome, !IsSuccess(result))
            else LogSoFar(log, snapshot, claimable, i + 1, outcome, false)
  {
    var log' := log + [Entry(i, result)];
    assert log'[|log|].index == i;
    forall j: nat | j < i && snapshot[j] == claimable ensures Logged(log', j) {
      var k :| 0 <= k < |log| && log[k].index == j;
      assert log'[k].index == j;
    }
  }

  lemma WholeLog(
    log: seq<Entry>, snapshot: seq<PlanStatus>, claimable: PlanStatus, i: nat, outcome: Outcome, failed: bool)
    requires LogSoFar(log, snapshot, claimable, i, outcome, failed)
    requires i == |snapshot| || failed || outcome != Executed
    ensures DispatchedInOrder(log, snapshot, claimable)
    ensures outcome == Executed ==> NothingSkipped(log, snapshot, claimable, |snapshot|)
  {
  }

  /** The call went on by steps of its own, and `answers` is what its adapters answered meanwhile. */
  ghost predicate Progress(
    before: seq<Step>, after: seq<Step>, owner: Token, seconds: int, answers: seq<ApplyStatus>)
  {
    Worked(before, after, owner, seconds) && Answers(after) == Answers(before) + answers
  }

  /** The adapters answered what the log says; the answer to the last call may have been refused. */
  ghost predicate Reported(
    before: seq<Step>, after: seq<Step>, owner: Token, seconds: int, log: seq<Entry>, outcome: Outcome)
  {
    if outcome == Executed then Progress(before, after, owner, seconds, Results(log))
    else exists lost: seq<ApplyStatus> :: |lost| <= 1 && Progress(before, after, owner, seconds, Results(log) + lost)
  }

  lemma NoProgress(steps: seq<Step>, owner: Token, seconds: int)
    ensures Progress(steps, steps, owner, seconds, [])
  {
  }

  lemma OneStep(before: seq<Step>, step: Step, owner: Token, seconds: int)
    requires IsStepOf(step, owner, seconds)
    ensures Progress(before, before + [step], owner, seconds,
                     if step.action.AdapterReturns? then [step.action.result] else [])
  {
    OneMoreStep(before, step);
  }

  lemma ProgressAddsUp(
    before: seq<Step>, mid: seq<Step>, after: seq<Step>, owner: Token, seconds: int,
    first: seq<ApplyStatus>, second: seq<ApplyStatus>)
    requires Progress(before, mid, owner, seconds, first) && Progress(mid, after, owner, seconds, second)
    ensures Progress(before, after, owner, seconds, first + second)
  {
    forall k | |before| <= k < |after| ensures IsStepOf(after[k], owner, seconds) {
      if k < |mid| { assert after[k] == mid[k]; }
    }
  }

  // ---- Rulings -----------------------------------------------------------------

  /** What may be written for a row: only undispatched work is offered for replay. */
  predicate VerdictFits(row: OpRow, verdict: ApplyStatus) {
    if row.status == Issued then verdict == RetryableNotApplied
    else verdict in {Applied, Conflict} || verdict == if row.attempt > 0 then Unknown else RetryableNotApplied
  }

  /** The verdicts follow the plan order. */
  ghost predicate RulesInOrder(log: seq<Entry>, rows: seq<OpRow>) {
    && (forall k | 0 <= k < |log| ::
          log[k].index < |rows| && NeedsRuling(rows[log[k].index]) && VerdictFits(rows[log[k].index], log[k].result))
    && InPlanOrder(log)
  }

  ghost predicate AllRuled(log: seq<Entry>, rows: seq<OpRow>, upTo: nat) {
    forall i: nat | i < upTo && i < |rows| && NeedsRuling(rows[i]) :: Logged(log, i)
  }

  /** The log of a scan that has reached row `upTo`. */
  ghost predicate RuledUpTo(log: seq<Entry>, rows: seq<OpRow>, upTo: nat) {
    RulesInOrder(log, rows) && AllRuled(log, rows, upTo) && forall k | 0 <= k < |log| :: log[k].index < upTo
  }

  lemma NoRulings(rows: seq<OpRow>)
    ensures RuledUpTo([], rows, 0)
  {
  }

  lemma RulingsSoFar(log: seq<Entry>, rows: seq<OpRow>, upTo: nat)
    requires RuledUpTo(log, rows, upTo)
    ensures RulesInOrder(log, rows) && AllRuled(log, rows, upTo)
  {
  }

  lemma SkippedRuling(log: seq<Entry>, rows: seq<OpRow>, i: nat)
    requires RuledUpTo(log, rows, i) && i < |rows| && !NeedsRuling(rows[i])
    ensures RuledUpTo(log, rows, i + 1)
  {
  }

  lemma ExtendRulings(log: seq<Entry>, rows: seq<OpRow>, i: nat, verdict: ApplyStatus)
    requires RuledUpTo(log, rows, i) && i < |rows| && NeedsRuling(rows[i])
    requires VerdictFits(rows[i], verdict)
    ensures RuledUpTo(log + [Entry(i, verdict)], rows, i + 1) && !Logged(log, i)
  {
    var log' := log + [Entry(i, verdict)];
    assert log'[|log|].index == i;
    forall j: nat | j < i && NeedsRuling(rows[j]) ensures Logged(log', j) {
      var k :| 0 <= k < |log| && log[k].index == j;
      assert log'[k].index == j;
    }
  }
}
