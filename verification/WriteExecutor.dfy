/** The calls of write_executor.py, statement by statement, each running against arbitrary
    interference: between any two of its store transactions every other executor, reconciler
    and the clock may take any number of steps. */
module WriteExecutors {
  import opened Wrappers
  import opened WritePlans
  import opened PlanRows
  import opened WriteProtocol
  import opened ProtocolSafety
  import opened ProtocolAttempts
  import opened ProtocolOrder
  import opened ProtocolConfirms
  import opened ExecutorSteps
  import opened CallLogs
  import opened Deployments

  /** The call that holds `owner` found these statuses when it read the plan after its claim. */
  ghost predicate Snapshot(d: Deployment, from: nat, owner: Token, snapshot: seq<PlanStatus>)
    reads d
  {
    exists ops :: ReadBy(d.start, d.trace, from, Work(owner, ReadRecord), ops) && snapshot == Statuses(ops)
  }

  /** How an executor ends that was left alone: every result is stored with its operation and nothing
      else has changed, or the store refused the last receipt. */
  ghost predicate CarriedOut(
    before: PlanRow, after: PlanRow, claimable: PlanStatus, snapshot: seq<PlanStatus>, log: seq<Entry>,
    outcome: Outcome)
  {
    && snapshot == Statuses(before.ops)
    && if outcome == Executed then Settled(before.ops, after.ops, log) else Refuses(after, claimable)
  }

  /** `_execute_claimed`: every transaction it commits is the next step of a run of the protocol. */
  method ExecuteClaimed(d: Deployment, claimable: PlanStatus, owner: Token, leaseSeconds: int)
    returns (outcome: Outcome, snapshot: seq<PlanStatus>, log: seq<Entry>)
    requires d.At(owner, Claimed(claimable)) && leaseSeconds > 0
    modifies d, d.store
    ensures d.At(owner, Stopped) && old(d.trace) <= d.trace && d.Others() >= old(d.Others()) && d.clock >= old(d.clock)
    ensures outcome == Executed || outcome == TransitionError
    ensures Snapshot(d, |old(d.trace)|, owner, snapshot)
    ensures DispatchedInOrder(log, snapshot, claimable)
    ensures outcome == Executed ==> NothingSkipped(log, snapshot, claimable, |snapshot|)
    ensures Reported(old(d.own), d.own, owner, leaseSeconds, log, outcome)
    ensures outcome != Executed ==> Denied(d.start, d.trace, owner, leaseSeconds)
    ensures d.Others() == old(d.Others()) && HoldsLive(old(d.sys), owner) && claimable in {Issued, RetryableNotApplied}
            ==> CarriedOut(old(d.sys.row), d.sys.row, claimable, snapshot, log, outcome)
  {
    hide Run, Apply, Deployment.Valid, DispatchedInOrder, NothingSkipped, InView, HoldsLive, Refuses, Reported, ReadBy,
         CarriedOut, Denied;
    ghost var s0, own0, from := d.sys, d.own, |d.trace|;
    snapshot := d.ReadStatuses(owner, claimable);
    ghost var s1, own1, trace1 := d.sys, d.own, d.trace;
    outcome, log := DispatchAll(d, claimable, owner, leaseSeconds, snapshot);
    FirstStepReported(own0, Work(owner, ReadRecord), d.own, owner, leaseSeconds, log, outcome);
    ReadStays(d.start, trace1, d.trace, from, from, Work(owner, ReadRecord), s1.row.ops);
    if d.Others() == old(d.Others()) && HoldsLive(s0, owner) && claimable in {Issued, RetryableNotApplied} {
      ReadBringsView(s0, s1, owner, claimable, snapshot);
    }
  }

  /** The loop over the operations. */
  method DispatchAll(d: Deployment, claimable: PlanStatus, owner: Token, leaseSeconds: int, snapshot: seq<PlanStatus>)
    returns (outcome: Outcome, log: seq<Entry>)
    requires d.At(owner, Looping(claimable, snapshot, 0)) && leaseSeconds > 0
    modifies d, d.store
    ensures d.At(owner, Stopped) && old(d.trace) <= d.trace && d.Others() >= old(d.Others()) && d.clock >= old(d.clock)
    ensures outcome == Executed || outcome == TransitionError
    ensures DispatchedInOrder(log, snapshot, claimable)
    ensures outcome == Executed ==> NothingSkipped(log, snapshot, claimable, |snapshot|)
    ensures Reported(old(d.own), d.own, owner, leaseSeconds, log, outcome)
    ensures outcome != Executed ==> Denied(d.start, d.trace, owner, leaseSeconds)
    ensures d.Others() == old(d.Others()) && InView(old(d.sys), owner, claimable, snapshot, 0)
            && snapshot == Statuses(old(d.sys.row.ops))
            ==> CarriedOut(old(d.sys.row), d.sys.row, claimable, snapshot, log, outcome)
  {
    hide Run, Apply, Deployment.Valid, Deployment.At, DispatchedInOrder, NothingSkipped, LogSoFar, Logged, InView,
         RoundDone, Refuses, Progress, Reported, OnCourse, CarriedOut, Denied;
    ghost var s0, own0, others := d.sys, d.own, d.Others();
    ghost var calm := InView(s0, owner, claimable, snapshot, 0) && snapshot == Statuses(s0.row.ops);
    if calm { StartsOnCourse(s0, owner, claimable, snapshot); }
    log := [];
    EmptyLog(snapshot, claimable);
    StartReported(own0, owner, leaseSeconds);
    outcome := Executed;
    var failed := false;
    var i := 0;
    while i < |snapshot| && !failed && outcome == Executed
      invariant 0 <= i <= |snapshot| && old(d.trace) <= d.trace && d.Others() >= others && d.clock >= old(d.clock)
      invariant outcome == Executed || outcome == TransitionError
      invariant if failed || outcome != Executed then d.At(owner, Stopped)
                else d.At(owner, Looping(claimable, snapshot, i))
      invariant LogSoFar(log, snapshot, claimable, i, outcome, failed)
      invariant Reported(own0, d.own, owner, leaseSeconds, log, outcome)
      invariant outcome != Executed ==> Denied(d.start, d.trace, owner, leaseSeconds)
      invariant calm && d.Others() == others ==>
                  OnCourse(s0, d.sys, owner, claimable, snapshot, i, log, outcome, failed)
    {
      ghost var s1, own1 := d.sys, d.own;
      if snapshot[i] != claimable {
        SkippedInLog(log, snapshot, claimable, i);
        d.Skip(owner, claimable, snapshot, i);
        StepReported(own0, own1, Work(owner, SkipOperation), owner, leaseSeconds, log);
        if calm && d.Others() == others {
          SkipStaysOnCourse(s0, s1, d.sys, owner, claimable, snapshot, i, log);
        }
      } else {
        var result: ApplyStatus;
        outcome, result := DispatchOperation(d, claimable, owner, leaseSeconds, snapshot, i);
        RoundReported(own0, own1, d.own, owner, leaseSeconds, log, i, result, outcome);
        ExtendLog(log, snapshot, claimable, i, result, outcome);
        if calm && d.Others() == others {
          RoundStaysOnCourse(s0, s1, d.sys, owner, claimable, snapshot, i, log, outcome, result);
        }
        if outcome == Executed {
          log := log + [Entry(i, result)];
          failed := !IsSuccess(result);
        }
      }
      i := i + 1;
    }
    WholeLog(log, snapshot, claimable, i, outcome, failed);
    ghost var s1, own1 := d.sys, d.own;
    if !failed && outcome == Executed {
      d.StopNow(owner, Looping(claimable, snapshot, |snapshot|));
      StepReported(own0, own1, Work(owner, Stop), owner, leaseSeconds, log);
    }
    if calm && d.Others() == others {
      EndsOnCourse(s0, s1, d.sys, owner, claimable, snapshot, i, log, outcome, failed);
    }
  }

  /** Where the loop is when nobody has interfered since it began, in state s. */
  ghost predicate OnCourse(
    s: Sys, s': Sys, owner: Token, claimable: PlanStatus, snapshot: seq<PlanStatus>, i: nat, log: seq<Entry>,
    outcome: Outcome, failed: bool)
  {
    && CarriedOut(s.row, s'.row, claimable, snapshot, log, outcome)
    && (outcome == Executed && !failed ==> InView(s', owner, claimable, snapshot, i))
  }

  lemma StartsOnCourse(s: Sys, owner: Token, claimable: PlanStatus, snapshot: seq<PlanStatus>)
    requires InView(s, owner, claimable, snapshot, 0) && snapshot == Statuses(s.row.ops)
    ensures OnCourse(s, s, owner, claimable, snapshot, 0, [], Executed, false)
  {
    hide InView;
    NothingSettled(s.row.ops);
  }

  lemma SkipStaysOnCourse(
    s: Sys, s1: Sys, s': Sys, owner: Token, claimable: PlanStatus, snapshot: seq<PlanStatus>, i: nat, log: seq<Entry>)
    requires OnCourse(s, s1, owner, claimable, snapshot, i, log, Executed, false)
    requires Apply(s1, Work(owner, SkipOperation)) == Some(s')
    ensures OnCourse(s, s', owner, claimable, snapshot, i + 1, log, Executed, false)
  {
    hide Apply, InView, Settled;
    RowIsKept(s1, s', owner, SkipOperation);
    SkipKeepsView(s1, s', owner, claimable, snapshot, i);
  }

  lemma RoundStaysOnCourse(
    s: Sys, s1: Sys, s': Sys, owner: Token, claimable: PlanStatus, snapshot: seq<PlanStatus>, i: nat, log: seq<Entry>,
    outcome: Outcome, result: ApplyStatus)
    requires OnCourse(s, s1, owner, claimable, snapshot, i, log, Executed, false) && !Logged(log, i)
    requires InView(s1, owner, claimable, snapshot, i) ==>
               if outcome == Executed then RoundDone(s1, s', owner, claimable, snapshot, i, result)
               else Refuses(s'.row, claimable)
    ensures if outcome == Executed then
              OnCourse(s, s', owner, claimable, snapshot, i + 1, log + [Entry(i, result)], Executed, !IsSuccess(result))
            else OnCourse(s, s', owner, claimable, snapshot, i + 1, log, outcome, false)
  {
    hide Settled, Logged, Wrote, InView, Refuses;
    if outcome == Executed {
      ExtendSettled(s.row.ops, s1.row.ops, s'.row.ops, log, i, result);
    }
  }

  lemma EndsOnCourse(
    s: Sys, s1: Sys, s': Sys, owner: Token, claimable: PlanStatus, snapshot: seq<PlanStatus>, i: nat, log: seq<Entry>,
    outcome: Outcome, failed: bool)
    requires OnCourse(s, s1, owner, claimable, snapshot, i, log, outcome, failed)
    requires if !failed && outcome == Executed then Apply(s1, Work(owner, Stop)) == Some(s') else s' == s1
    ensures CarriedOut(s.row, s'.row, claimable, snapshot, log, outcome)
  {
    hide Apply, Settled, Refuses, InView;
    if s' != s1 { RowIsKept(s1, s', owner, Stop); }
  }

  /** One round of the loop: claim the operation, call its adapter, record the receipt. */
  method DispatchOperation(
    d: Deployment, claimable: PlanStatus, owner: Token, leaseSeconds: int, snapshot: seq<PlanStatus>, i: nat)
    returns (outcome: Outcome, result: ApplyStatus)
    requires d.At(owner, Looping(claimable, snapshot, i)) && leaseSeconds > 0
    requires i < |snapshot| && snapshot[i] == claimable
    modifies d, d.store
    ensures old(d.trace) <= d.trace && d.Others() >= old(d.Others()) && d.clock >= old(d.clock)
    ensures outcome == Executed || outcome == TransitionError
    ensures if outcome == Executed && IsSuccess(result) then d.At(owner, Looping(claimable, snapshot, i + 1))
            else d.At(owner, Stopped)
    ensures Progress(old(d.own), d.own, owner, leaseSeconds, [result])
            || (outcome != Executed && Progress(old(d.own), d.own, owner, leaseSeconds, []))
    ensures d.Others() == old(d.Others()) && InView(old(d.sys), owner, claimable, snapshot, i) ==>
              if outcome == Executed then RoundDone(old(d.sys), d.sys, owner, claimable, snapshot, i, result)
              else Refuses(d.sys.row, claimable)
    ensures outcome != Executed ==> Denied(d.start, d.trace, owner, leaseSeconds)
  {
    hide Run, Apply, Deployment.Valid, InView, CallDone, RoundDone, Refuses, Progress, RecordReceipt, CannotGoOn,
         Denied;
    ghost var s0, own0 := d.sys, d.own;
    var called, token, attempt;
    called, token, attempt, result := CallOperation(d, claimable, owner, leaseSeconds, snapshot, i);
    if !called {
      GivesUp(d, owner, token, leaseSeconds);
      d.StopNow(owner, Looping(claimable, snapshot, i));
      OneStep(own0, Work(owner, Stop), owner, leaseSeconds);
      return TransitionError, result;
    }
    ghost var s3 := d.sys;
    var receipt := Receipt(result, attempt, Some(token));
    ghost var w := Returned(claimable, snapshot, i, token, attempt, result);
    var done := d.RecordNow(owner, i, receipt, token, w);
    ghost var quiet := d.Others() == old(d.Others()) && InView(s0, owner, claimable, snapshot, i);
    if !done {
      if quiet { RefusalHasReason(d, owner, w, snapshot, s0); }
      RecordIsDenied(d, owner, w, leaseSeconds);
      d.StopNow(owner, w);
      RoundProgress(own0, owner, leaseSeconds, token, result, Stop);
      if d.Others() == old(d.Others()) { RowIsKept(s3, d.sys, owner, Stop); }
      return TransitionError, result;
    }
    if quiet { ReceiptIsDone(s0, s3, d.sys, owner, claimable, snapshot, i, token, attempt, result); }
    RoundProgress(own0, owner, leaseSeconds, token, result, Record);
    outcome := Executed;
  }

  /** The part of a round that precedes its receipt. */
  method CallOperation(
    d: Deployment, claimable: PlanStatus, owner: Token, leaseSeconds: int, snapshot: seq<PlanStatus>, i: nat)
    returns (called: bool, token: Token, attempt: nat, result: ApplyStatus)
    requires d.At(owner, Looping(claimable, snapshot, i)) && leaseSeconds > 0
    requires i < |snapshot| && snapshot[i] == claimable
    modifies d, d.store
    ensures old(d.trace) <= d.trace && d.Others() >= old(d.Others()) && d.clock >= old(d.clock)
    ensures if called then d.At(owner, Returned(claimable, snapshot, i, token, attempt, result))
            else d.At(owner, Looping(claimable, snapshot, i)) && CannotGoOn(d.sys, owner, token, leaseSeconds)
    ensures d.own == if called then CallSteps(old(d.own), owner, leaseSeconds, token, result) else old(d.own)
    ensures d.Others() == old(d.Others()) && InView(old(d.sys), owner, claimable, snapshot, i) ==>
              called && CallDone(old(d.sys), d.sys, owner, claimable, snapshot, i)
  {
    hide Run, Apply, Deployment.Valid, InView, CallDone, ClaimOperation;
    ghost var s0 := d.sys;
    attempt, result := 0, Unknown;
    token := d.FreshToken();
    var claimed := d.ClaimNext(owner, token, leaseSeconds, claimable, snapshot, i);
    called := claimed.Success?;
    if !called {
      if d.Others() == old(d.Others()) && InView(s0, owner, claimable, snapshot, i) {
        ClaimIsPossible(s0, owner, claimable, snapshot, i, token, leaseSeconds);
      }
      return;
    }
    ghost var s1 := d.sys;
    attempt := claimed.value;
    d.StartCall(owner, Dispatching(claimable, snapshot, i, token, attempt));
    ghost var s2 := d.sys;
    result := d.Answer(owner, Calling(claimable, snapshot, i, token, attempt));
    if d.Others() == old(d.Others()) && InView(s0, owner, claimable, snapshot, i) {
      CallIsDone(s0, s1, s2, d.sys, owner, claimable, snapshot, i, token, leaseSeconds, attempt, result);
    }
  }

  ghost function CallSteps(before: seq<Step>, owner: Token, seconds: int, token: Token, result: ApplyStatus)
    : seq<Step>
  {
    before + [Work(owner, ClaimOp(token, seconds))] + [Work(owner, CallAdapter)] + [Work(owner, AdapterReturns(result))]
  }

  lemma GivesUp(d: Deployment, owner: Token, token: Token, seconds: int)
    requires d.Valid() && CannotGoOn(d.sys, owner, token, seconds)
    ensures Denied(d.start, d.trace + [Work(owner, Stop)], owner, seconds)
  {
    DeniedNow(d.start, d.trace, d.sys, owner, token, seconds);
  }

  lemma RecordIsDenied(d: Deployment, owner: Token, w: Worker, seconds: int)
    requires d.At(owner, w) && w.Returned?
    requires RecordReceipt(d.sys.row, w.next, ReceiptOf(w), Some(owner), Some(w.token), d.sys.clock).Failure?
    ensures Denied(d.start, d.trace + [Work(owner, Stop)], owner, seconds)
  {
    hide Run, Init, RecordReceipt, Denied;
    assert CannotGoOn(d.sys, owner, w.token, seconds);
    GivesUp(d, owner, w.token, seconds);
  }

  lemma RefusalHasReason(d: Deployment, owner: Token, w: Worker, snapshot: seq<PlanStatus>, s: Sys)
    requires d.At(owner, w) && w.Returned? && CallDone(s, d.sys, owner, w.claimable, snapshot, w.next)
    requires RecordReceipt(d.sys.row, w.next, ReceiptOf(w), Some(owner), Some(w.token), d.sys.clock).Failure?
    ensures Refuses(d.sys.row, w.claimable)
  {
    hide Run, RecordReceipt, Refuses, Init, Wrote;
    RefusedForAReason(d.start, d.trace, d.sys, owner, w);
  }

  lemma RoundProgress(
    before: seq<Step>, owner: Token, seconds: int, token: Token, result: ApplyStatus, last: Action)
    requires last.Record? || last.Stop?
    ensures Progress(before, CallSteps(before, owner, seconds, token, result) + [Work(owner, last)], owner, seconds,
                     [result])
  {
    hide Progress;
    var one := before + [Work(owner, ClaimOp(token, seconds))];
    var two := one + [Work(owner, CallAdapter)];
    var three := two + [Work(owner, AdapterReturns(result))];
    OneStep(before, Work(owner, ClaimOp(token, seconds)), owner, seconds);
    OneStep(one, Work(owner, CallAdapter), owner, seconds);
    OneStep(two, Work(owner, AdapterReturns(result)), owner, seconds);
    OneStep(three, Work(owner, last), owner, seconds);
    ProgressAddsUp(before, one, two, owner, seconds, [], []);
    ProgressAddsUp(before, two, three, owner, seconds, [] + [], [result]);
    ProgressAddsUp(before, three, three + [Work(owner, last)], owner, seconds, [] + [] + [result], []);
    assert [] + [] + [result] + [] == [result];
  }

  lemma StartReported(before: seq<Step>, owner: Token, seconds: int)
    ensures Reported(before, before, owner, seconds, [], Executed)
  {
    hide Progress;
    NoProgress(before, owner, seconds);
    assert Results([]) == [];
  }

  lemma FirstStepReported(
    before: seq<Step>, step: Step, after: seq<Step>, owner: Token, seconds: int, log: seq<Entry>, outcome: Outcome)
    requires Reported(before + [step], after, owner, seconds, log, outcome)
    requires IsStepOf(step, owner, seconds) && !step.action.AdapterReturns?
    ensures Reported(before, after, owner, seconds, log, outcome)
  {
    hide Progress;
    OneStep(before, step, owner, seconds);
    forall answers | Progress(before + [step], after, owner, seconds, answers)
      ensures Progress(before, after, owner, seconds, answers)
    {
      ProgressAddsUp(before, before + [step], after, owner, seconds, [], answers);
      assert [] + answers == answers;
    }
  }

  lemma StepReported(
    before: seq<Step>, mid: seq<Step>, step: Step, owner: Token, seconds: int, log: seq<Entry>)
    requires Reported(before, mid, owner, seconds, log, Executed)
    requires IsStepOf(step, owner, seconds) && !step.action.AdapterReturns?
    ensures Reported(before, mid + [step], owner, seconds, log, Executed)
  {
    hide Progress;
    OneStep(mid, step, owner, seconds);
    ProgressAddsUp(before, mid, mid + [step], owner, seconds, Results(log), []);
    assert Results(log) + [] == Results(log);
  }

  lemma RoundReported(
    before: seq<Step>, mid: seq<Step>, after: seq<Step>, owner: Token, seconds: int, log: seq<Entry>,
    i: nat, result: ApplyStatus, outcome: Outcome)
    requires Reported(before, mid, owner, seconds, log, Executed)
    requires Progress(mid, after, owner, seconds, [result])
             || (outcome != Executed && Progress(mid, after, owner, seconds, []))
    ensures outcome == Executed ==> Reported(before, after, owner, seconds, log + [Entry(i, result)], Executed)
    ensures outcome != Executed ==> Reported(before, after, owner, seconds, log, outcome)
  {
    hide Progress;
    var answers := if Progress(mid, after, owner, seconds, [result]) then [result] else [];
    ProgressAddsUp(before, mid, after, owner, seconds, Results(log), answers);
    assert Results(log + [Entry(i, result)]) == Results(log) + [result];
  }

  /** What a call dispatches after its claim was open when it looked for the adapters. */
  lemma AdaptersAreThere(
    d: Deployment, from: nat, ops: seq<OpRow>, owner: Token, snapshot: seq<PlanStatus>, claimable: PlanStatus,
    log: seq<Entry>, adapters: set<string>)
    requires d.Valid() && from <= |d.trace| && RowsAt(d.start, d.trace, from) == Some(ops)
    requires Snapshot(d, from, owner, snapshot) && DispatchedInOrder(log, snapshot, claimable) && !IsSuccess(claimable)
    requires forall op | op in ops :: IsSuccess(op.status) || op.payload.kind in adapters
    ensures Served(ops, log, adapters)
  {
    hide Run, Init;
    var ops' :| ReadBy(d.start, d.trace, from, Work(owner, ReadRecord), ops') && snapshot == Statuses(ops');
    ReadLater(d.start, d.trace, from, ops, Work(owner, ReadRecord), ops');
    forall k | 0 <= k < |log| ensures log[k].index < |ops| && ops[log[k].index].payload.kind in adapters {
      assert ops[log[k].index] in ops;
    }
  }

  /** Every dispatched operation has an adapter. */
  predicate Served(ops: seq<OpRow>, log: seq<Entry>, adapters: set<string>) {
    forall k | 0 <= k < |log| :: log[k].index < |ops| && ops[log[k].index].payload.kind in adapters
  }

  // ---- confirm ----------------------------------------------------------------

  predicate Lacks(ops: seq<OpRow>, adapters: set<string>) {
    exists op | op in ops :: op.payload.kind !in adapters
  }

  predicate Overdue(row: PlanRow, now: int) {
    row.status == Issued && now > row.header.expiresAt
  }

  lemma PlanOfRow(row: PlanRow, adapters: set<string>)
    requires Rehydrate(row).Some?
    ensures Rehydrate(row).value.header == row.header && Rehydrate(row).value.status == row.status
    ensures Lacks(row.ops, adapters) <==> exists op | op in Rehydrate(row).value.operations :: op.kind !in adapters
  {
    var ops := Rehydrate(row).value.operations;
    forall i | 0 <= i < |ops|
      ensures ops[i].kind == row.ops[i].payload.kind && ops[i] in ops && row.ops[i] in row.ops {}
  }

  function ClaimStep(owner: Token, now: int, seconds: int, resume: bool): (step: Step) {
    Work(owner, if resume then ResumeClaim(now, seconds) else ConfirmClaim(now, seconds))
  }

  function Awaited(resume: bool): PlanStatus {
    if resume then RetryableNotApplied else Issued
  }

  /** The end of both calls: claim the plan and carry it out. */
  method ClaimAndExecute(d: Deployment, owner: Token, leaseSeconds: int, resume: bool)
    returns (outcome: Outcome, snapshot: seq<PlanStatus>, log: seq<Entry>)
    requires d.Valid() && leaseSeconds > 0 && owner < d.nextToken
    requires if resume then d.At(owner, GuardPassed) else WorkerOf(d.sys, owner) == None
    modifies d, d.store
    ensures d.Valid() && old(d.trace) <= d.trace && d.Others() >= old(d.Others()) && d.clock >= old(d.clock)
    ensures outcome in {NotClaimed, TransitionError, Executed}
    ensures DispatchedInOrder(log, snapshot, Awaited(resume))
    ensures outcome == Executed ==> NothingSkipped(log, snapshot, Awaited(resume), |snapshot|)
    ensures outcome == NotClaimed ==>
              && log == [] && d.own == old(d.own) && (resume ==> d.At(owner, GuardPassed))
              && !ClaimPlan(d.sys.row, owner, old(d.clock), leaseSeconds, resume).1
    ensures outcome == TransitionError ==> Denied(d.start, d.trace, owner, leaseSeconds)
    ensures outcome != NotClaimed ==>
              && Snapshot(d, |old(d.trace)|, owner, snapshot)
              && Reported(old(d.own) + [ClaimStep(owner, old(d.clock), leaseSeconds, resume)], d.own, owner,
                          leaseSeconds, log, outcome)
    ensures d.Others() == old(d.Others()) ==>
              && (outcome == NotClaimed <==> !ClaimPlan(old(d.sys.row), owner, old(d.clock), leaseSeconds, resume).1)
              && (outcome == NotClaimed ==> d.sys == old(d.sys))
              && (outcome != NotClaimed ==>
                    CarriedOut(old(d.sys.row), d.sys.row, Awaited(resume), snapshot, log, outcome))
  {
    hide Run, Apply, Deployment.Valid, DispatchedInOrder, NothingSkipped, HoldsLive, Reported, CarriedOut, Snapshot,
         ClaimPlan, Denied;
    snapshot, log := [], [];
    EmptyLog(snapshot, Awaited(resume));
    OneClock(d);
    ghost var s0, from := d.sys, |d.trace|;
    var claimed := d.ClaimNow(owner, leaseSeconds, resume);
    if !claimed {
      outcome := NotClaimed;
      return;
    }
    ghost var s1, from1 := d.sys, |d.trace|;
    outcome, snapshot, log := ExecuteClaimed(d, Awaited(resume), owner, leaseSeconds);
    EarlierSnapshot(d, from, from1, owner, snapshot);
    if d.Others() == old(d.Others()) {
      ClaimIsTaken(s0, s1, owner, leaseSeconds, resume);
      SameOps(s0.row, s1.row, d.sys.row, Awaited(resume), snapshot, log, outcome);
    }
  }

  lemma OneClock(d: Deployment)
    requires d.Valid()
    ensures d.clock == d.sys.clock
  {
  }

  lemma ClaimIsTaken(s: Sys, s': Sys, owner: Token, seconds: int, resume: bool)
    requires Apply(s, ClaimStep(owner, s.clock, seconds, resume)) == Some(s') && seconds > 0
    ensures ClaimPlan(s.row, owner, s.clock, seconds, resume).1
    ensures s'.row.ops == s.row.ops && HoldsLive(s', owner)
  {
    hide ReconcilerMove;
    ClaimBringsView(s, s', owner, s.clock, seconds, resume);
  }

  lemma SameOps(
    before: PlanRow, before': PlanRow, after: PlanRow, claimable: PlanStatus, snapshot: seq<PlanStatus>,
    log: seq<Entry>, outcome: Outcome)
    requires CarriedOut(before', after, claimable, snapshot, log, outcome) && before'.ops == before.ops
    ensures CarriedOut(before, after, claimable, snapshot, log, outcome)
  {
    hide Settled, Refuses;
  }

  lemma EarlierSnapshot(d: Deployment, from: nat, from': nat, owner: Token, snapshot: seq<PlanStatus>)
    requires Snapshot(d, from', owner, snapshot) && from <= from'
    ensures Snapshot(d, from, owner, snapshot)
  {
    hide Run;
    var ops :| ReadBy(d.start, d.trace, from', Work(owner, ReadRecord), ops) && snapshot == Statuses(ops);
    assert ReadBy(d.start, d.trace, from, Work(owner, ReadRecord), ops);
  }

  lemma ConfirmMayClaim(d: Deployment, owner: Token, now: int, seconds: int)
    requires d.Valid()
    ensures ClaimPlan(d.sys.row, owner, now, seconds, false).1 <==> d.sys.row.status == Issued
    ensures d.sys.row.status == Issued ==> TransitionPlan(d.sys.row, Issued, Expired, now).Success?
  {
    hide Run, Init;
    if d.sys.row.status == Issued { IssuedIsClaimable(d.start, d.trace, d.sys, owner, now, seconds); }
  }

  lemma RunSoFar(d: Deployment)
    requires d.Valid()
    ensures Run(d.start, d.trace) == Some(d.sys)
  {
  }

  lemma ExpireMarks(s: Sys, s': Sys)
    requires Apply(s, Expire) == Some(s')
    ensures s'.row == s.row.(status := Expired)
  {
  }

  /** `WriteExecutor.confirm`, which reads the plan at once, the clock at `now`, and the clock once more
      before its claim. A plan that it read ISSUED and overdue is not claimed, nor is one that lacks an
      adapter; every other plan is claimed if it is still ISSUED, and whoever is left alone carries it out. */
  method Confirm(d: Deployment, adapters: set<string>, leaseSeconds: int)
    returns (outcome: Outcome, now: int, owner: Token, snapshot: seq<PlanStatus>, log: seq<Entry>)
    requires d.Valid() && leaseSeconds > 0
    modifies d, d.store
    ensures d.Valid() && old(d.trace) <= d.trace && d.Others() >= old(d.Others()) && old(d.clock) <= now <= d.clock
    ensures DispatchedInOrder(log, snapshot, Issued)
    ensures outcome == Executed ==> NothingSkipped(log, snapshot, Issued, |snapshot|)
    ensures Overdue(old(d.sys.row), now) ==>
              && log == [] && outcome in {ExpiredPlan, TransitionError}
              && d.own == (old(d.own) + if outcome == ExpiredPlan then [Expire] else [])
              && (outcome == TransitionError ==> d.sys.row.status != Issued)
    ensures !Overdue(old(d.sys.row), now) ==>
              && (outcome == MissingAdapter <==> Lacks(old(d.sys.row.ops), adapters))
              && outcome in {MissingAdapter, NotClaimed, TransitionError, Executed}
              && (outcome in {MissingAdapter, NotClaimed} ==> log == [] && d.own == old(d.own))
              && (outcome == NotClaimed ==> d.sys.row.status != Issued)
              && (outcome == TransitionError ==> Denied(d.start, d.trace, owner, leaseSeconds))
              && Served(old(d.sys.row.ops), log, adapters)
              && (outcome in {TransitionError, Executed} ==>
                    && old(d.nextToken) <= owner && Snapshot(d, |old(d.trace)|, owner, snapshot)
                    && (exists t {:trigger ConfirmClaim(t, leaseSeconds)} | now <= t <= d.clock ::
                          Reported(old(d.own) + [Work(owner, ConfirmClaim(t, leaseSeconds))], d.own, owner,
                                   leaseSeconds, log, outcome)))
    ensures d.Others() == old(d.Others()) ==>
              && now == old(d.clock)
              && (Overdue(old(d.sys.row), now) ==>
                    outcome == ExpiredPlan && d.sys.row == old(d.sys.row).(status := Expired))
              && (!Overdue(old(d.sys.row), now) && outcome != MissingAdapter ==>
                    if old(d.sys.row.status) != Issued then outcome == NotClaimed && d.sys == old(d.sys)
                    else outcome != NotClaimed && CarriedOut(old(d.sys.row), d.sys.row, Issued, snapshot, log, outcome))
  {
    hide Run, Apply, Deployment.Valid, DispatchedInOrder, NothingSkipped, CarriedOut, Reported, Snapshot, ClaimPlan,
         TransitionPlan, Lacks, Rehydrate, Denied;
    ghost var s0, trace0, from := d.sys, d.trace, |d.trace|;
    RunSoFar(d);
    snapshot, log, owner := [], [], 0;
    EmptyLog(snapshot, Issued);
    var plan := d.FindPlan();
    PlanOfRow(d.sys.row, adapters);
    now := d.clock;
    if plan.None? {
      outcome := NotFound;
      return;
    }
    d.Interfere(d.nextToken);
    now := d.clock;
    if now > plan.value.header.expiresAt && plan.value.status == Issued {
      d.Interfere(d.nextToken);
      ConfirmMayClaim(d, 0, d.clock, leaseSeconds);
      var expired := d.ExpireNow();
      outcome := if expired then ExpiredPlan else TransitionError;
      if d.Others() == old(d.Others()) { ExpireMarks(s0, d.sys); }
      return;
    }
    if exists op | op in plan.value.operations :: op.kind !in adapters {
      outcome := MissingAdapter;
      return;
    }
    owner := d.FreshToken();
    ghost var t, from1 := d.clock, |d.trace|;
    ConfirmMayClaim(d, owner, d.clock, leaseSeconds);
    outcome, snapshot, log := ClaimAndExecute(d, owner, leaseSeconds, false);
    if outcome == NotClaimed {
      ConfirmMayClaim(d, owner, t, leaseSeconds);
    } else {
      EarlierSnapshot(d, from, from1, owner, snapshot);
      NothingLacks(s0.row, adapters);
      ConfirmIsServed(d, trace0, s0, owner, snapshot, log, adapters);
    }
  }

  lemma NothingLacks(row: PlanRow, adapters: set<string>)
    ensures !Lacks(row.ops, adapters) ==> forall op | op in row.ops :: op.payload.kind in adapters
  {
  }

  lemma ConfirmIsServed(
    d: Deployment, before: seq<Step>, s: Sys, owner: Token, snapshot: seq<PlanStatus>, log: seq<Entry>,
    adapters: set<string>)
    requires d.Valid() && before <= d.trace && Run(d.start, before) == Some(s)
    requires Snapshot(d, |before|, owner, snapshot) && DispatchedInOrder(log, snapshot, Issued)
    requires forall op | op in s.row.ops :: op.payload.kind in adapters
    ensures Served(s.row.ops, log, adapters)
  {
    hide Run, Init;
    assert d.trace[..|before|] == before;
    AdaptersAreThere(d, |before|, s.row.ops, owner, snapshot, Issued, log, adapters);
  }

  // ---- resume -----------------------------------------------------------------

  /** An operation that the call wants to send again has no adapter. */
  predicate LacksForReplay(ops: seq<OpRow>, adapters: set<string>) {
    exists op | op in ops :: op.status == RetryableNotApplied && op.payload.kind !in adapters
  }

  /** `WriteExecutor.resume`, which reads the plan at once and the operations, `ops`, later, and claims
      later still: it goes on exactly when the guard holds over these two reads and the open operations
      have adapters. The owner token, which nobody sees before the claim, is drawn first. */
  method Resume(d: Deployment, adapters: set<string>, leaseSeconds: int)
    returns (outcome: Outcome, ops: seq<OpRow>, owner: Token, snapshot: seq<PlanStatus>, log: seq<Entry>)
    requires d.Valid() && leaseSeconds > 0
    modifies d, d.store
    ensures d.Valid() && old(d.trace) <= d.trace && d.Others() >= old(d.Others()) && d.clock >= old(d.clock)
    ensures outcome in {MissingAdapter, TransitionError, Executed} && old(d.nextToken) <= owner
    ensures DispatchedInOrder(log, snapshot, RetryableNotApplied)
    ensures outcome == Executed ==> NothingSkipped(log, snapshot, RetryableNotApplied, |snapshot|)
    ensures GuardOver(old(d.sys.row.status), ops) ==>
              ReadBy(d.start, d.trace, |old(d.trace)|, Work(owner, CheckGuard), ops)
    ensures outcome == MissingAdapter <==> GuardOver(old(d.sys.row.status), ops) && LacksForReplay(ops, adapters)
    ensures if GuardOver(old(d.sys.row.status), ops) && !LacksForReplay(ops, adapters) then
              || (ClaimedAfterGuard(d, old(d.own), |old(d.trace)|, owner, leaseSeconds, snapshot, log, outcome)
                  && (outcome != Executed ==> Denied(d.start, d.trace, owner, leaseSeconds)))
              || (outcome != Executed && log == [] && d.own == Guarded(old(d.own), owner) + [Work(owner, Stop)]
                  && exists now | old(d.clock) <= now <= d.clock ::
                       !ClaimPlan(d.sys.row, owner, now, leaseSeconds, true).1)
            else outcome != Executed && log == [] && d.own == Refused(old(d.own), owner, outcome == MissingAdapter)
    ensures !GuardOver(old(d.sys.row.status), ops) ==> ops == d.sys.row.ops
    ensures Served(ops, log, adapters)
    ensures d.Others() == old(d.Others()) ==>
              && ops == old(d.sys.row.ops)
              && (ResumeGuard(old(d.sys.row)) && outcome != MissingAdapter ==>
                    if LeaseLive(old(d.sys.row), old(d.clock)) then log == [] && d.sys.row == old(d.sys.row)
                    else ClaimedAfterGuard(d, old(d.own), |old(d.trace)|, owner, leaseSeconds, snapshot, log, outcome)
                         && CarriedOut(old(d.sys.row), d.sys.row, RetryableNotApplied, snapshot, log, outcome))
  {
    hide Run, Apply, Deployment.Valid, DispatchedInOrder, NothingSkipped, CarriedOut, Reported, Snapshot, ClaimPlan,
         GuardOver, LacksForReplay, ReadBy, Denied;
    snapshot, log := [], [];
    EmptyLog(snapshot, RetryableNotApplied);
    ghost var s0, from := d.sys, |d.trace|;
    owner := d.FreshToken();
    var passed, missing;
    passed, missing, ops := PassGuard(d, adapters, owner);
    if !passed {
      outcome := if missing then MissingAdapter else TransitionError;
      return;
    }
    ghost var status, trace1 := s0.row.status, d.trace;
    outcome, snapshot, log := ClaimAndExecute(d, owner, leaseSeconds, true);
    if ResumeGuard(s0.row) { GuardedPlanIsClaimable(s0.row, owner, old(d.clock), leaseSeconds); }
    if outcome != NotClaimed {
      ResumeIsServed(d, trace1, from, status, ops, owner, snapshot, log, adapters);
      EarlierSnapshot(d, from, |trace1|, owner, snapshot);
    } else {
      ghost var s2 := d.sys;
      d.StopNow(owner, GuardPassed);
      RowIsKept(s2, d.sys, owner, Stop);
      outcome := TransitionError;
    }
    ReadStays(d.start, trace1, d.trace, from, from, Work(owner, CheckGuard), ops);
  }

  lemma ResumeIsServed(
    d: Deployment, before: seq<Step>, from: nat, status: PlanStatus, ops: seq<OpRow>, owner: Token,
    snapshot: seq<PlanStatus>, log: seq<Entry>, adapters: set<string>)
    requires d.Valid() && before <= d.trace && ReadBy(d.start, before, from, Work(owner, CheckGuard), ops)
    requires GuardOver(status, ops) && !LacksForReplay(ops, adapters)
    requires Snapshot(d, |before|, owner, snapshot) && DispatchedInOrder(log, snapshot, RetryableNotApplied)
    ensures Served(ops, log, adapters)
  {
    hide Run, Init;
    var k: nat :| from <= k < |before| && before[k] == Work(owner, CheckGuard)
                  && RowsAt(d.start, before, k) == Some(ops);
    assert before[..k] == d.trace[..k];
    EarlierSnapshot(d, k, |before|, owner, snapshot);
    AdaptersAreThere(d, k, ops, owner, snapshot, RetryableNotApplied, log, adapters);
  }

  lemma GuardedPlanIsClaimable(row: PlanRow, owner: Token, now: int, seconds: int)
    requires ResumeGuard(row)
    ensures ClaimPlan(row, owner, now, seconds, true).1 <==> !LeaseLive(row, now)
  {
  }

  /** The part of the call that precedes its claim. */
  method PassGuard(d: Deployment, adapters: set<string>, owner: Token)
    returns (passed: bool, missing: bool, ops: seq<OpRow>)
    requires d.Valid() && owner < d.nextToken && WorkerOf(d.sys, owner) == None
    modifies d, d.store
    ensures old(d.trace) <= d.trace && d.Others() >= old(d.Others()) && d.clock >= old(d.clock)
    ensures !GuardOver(old(d.sys.row.status), ops) ==> ops == d.sys.row.ops
    ensures d.At(owner, if passed then GuardPassed else Stopped)
    ensures passed <==> GuardOver(old(d.sys.row.status), ops) && !LacksForReplay(ops, adapters)
    ensures missing <==> GuardOver(old(d.sys.row.status), ops) && LacksForReplay(ops, adapters)
    ensures d.own == if passed then Guarded(old(d.own), owner) else Refused(old(d.own), owner, missing)
    ensures GuardOver(old(d.sys.row.status), ops) ==>
              ReadBy(d.start, d.trace, |old(d.trace)|, Work(owner, CheckGuard), ops)
    ensures d.Others() == old(d.Others()) ==>
              ops == old(d.sys.row.ops) && d.sys.row == old(d.sys.row) && d.clock == old(d.clock)
  {
    hide Run, Apply, Deployment.Valid, GuardOver, LacksForReplay, ReadBy;
    ghost var from := |d.trace|;
    var plan := d.ReadPlanNow(owner);
    var status := plan.value.status;
    ghost var s1, from1 := d.sys, |d.trace|;
    OneClock(d);
    var record := d.ReadForGuard(owner, status);
    ops := record.value.ops;
    passed, missing := false, false;
    ghost var s2, trace2 := d.sys, d.trace;
    if GuardOver(status, ops) {
      if d.Others() == old(d.Others()) { RowIsKept(s1, s2, owner, CheckGuard); }
      missing := LacksForReplay(ops, adapters);
      passed := !missing;
    }
    if !passed {
      d.StopNow(owner, if missing then GuardPassed else PlanRead(status));
      RowIsKept(s2, d.sys, owner, Stop);
    }
    OneClock(d);
    if GuardOver(status, ops) { ReadStays(d.start, trace2, d.trace, from1, from, Work(owner, CheckGuard), ops); }
  }

  ghost function Refused(before: seq<Step>, owner: Token, guarded: bool): seq<Step> {
    (if guarded then Guarded(before, owner) else before + [Work(owner, ReadPlan)]) + [Work(owner, Stop)]
  }

  ghost function Guarded(before: seq<Step>, owner: Token): seq<Step> {
    before + [Work(owner, ReadPlan)] + [Work(owner, CheckGuard)]
  }

  /** The call passed its guard, claimed the plan, and then worked under that claim. */
  ghost predicate ClaimedAfterGuard(
    d: Deployment, before: seq<Step>, from: nat, owner: Token, seconds: int, snapshot: seq<PlanStatus>,
    log: seq<Entry>, outcome: Outcome)
    reads d
  {
    && Snapshot(d, from, owner, snapshot)
    && exists now {:trigger ResumeClaim(now, seconds)} ::
         Reported(Guarded(before, owner) + [Work(owner, ResumeClaim(now, seconds))], d.own, owner, seconds, log,
                  outcome)
  }

  // ---- Every deployment -------------------------------------------------------

  /** Whatever calls ran against a deployment, its stored rows hide no success. Unless a replay
      verdict rested on a stale snapshot, no operation was sent twice; unless a resume call claimed
      a plan with work on offer behind unfinished work, nothing was sent out of order. Without a
      resume call neither has happened, and no verdict was stale if every reconciler had fenced the plan. */
  lemma StoredPlanIsSound(d: Deployment)
    requires d.Valid()
    ensures NoHiddenPartialWrite(d.store.plans[d.planId]) && |d.sys.winners| <= 1
    ensures VerdictsFresh(d.start, d.trace) || WithoutResume(d.trace) ==>
              forall i | 0 <= i < |d.sys.calls| :: d.sys.calls[i] <= d.store.plans[d.planId].ops[i].attempt <= 1
    ensures ClaimsOrderly(d.start, d.trace) || WithoutResume(d.trace) ==>
              var ops := d.store.plans[d.planId].ops;
              forall i | Frontier(ops) < i < |ops| :: ops[i].attempt == 0 && d.sys.calls[i] == 0
    ensures WithoutResume(d.trace) && FencesHeld(d.start, d.trace) ==> VerdictsFresh(d.start, d.trace)
  {
    hide VerdictsFresh, ClaimsOrderly, FencesHeld, WithoutResume;
    assert Run(d.sys, []) == Some(d.sys);
    NoRunHidesAPartialWrite(d.start, d.trace, d.sys, [], d.sys);
    OneWinner(d.start, d.trace, d.sys);
    if WithoutResume(d.trace) {
      AtMostOnceWithoutResume(d.start, d.trace, d.sys);
      WithoutResumeClaimsAreOrderly(d.start, d.trace);
      if FencesHeld(d.start, d.trace) { FencedVerdictsAreFresh(d.start, d.trace); }
    }
    if VerdictsFresh(d.start, d.trace) { AtMostOnceDispatch(d.start, d.trace, d.sys); }
    if ClaimsOrderly(d.start, d.trace) { InOrderExecution(d.start, d.trace, d.sys); }
  }
}
