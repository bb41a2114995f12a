/** A verdict can be stale without any resume call: a reconciler whose fencing block found the plan still
    ISSUED goes on beside the confirming call that has claimed it since. */
module ConfirmRaces {
  import opened Wrappers
  import opened WritePlans
  import opened PlanRows
  import opened WriteProtocol
  import opened ProtocolAttempts
  import opened ProtocolConfirms
  import opened ProtocolRaces
  import opened ProtocolFailures

  /** Reconciler 1 fences nothing, since nobody has claimed the plan. */
  lemma FenceNothing(start: Sys)
    requires Init(start)
    ensures Reaches(start, [Reconcile(1, Fence)], PutReader(start, 1, Fencing(Issued)))
    ensures Unclaimed(PutReader(start, 1, Fencing(Issued)))
  {
    StartIsUnclaimed(start);
    assert Apply(start, Reconcile(1, Fence)) == Some(PutReader(start, 1, Fencing(Issued)));
    One(start, Reconcile(1, Fence), PutReader(start, 1, Fencing(Issued)));
  }

  lemma GoesOn(s: Sys)
    requires 1 in s.reconcilers && s.reconcilers[1] == Fencing(Issued) && s.row.status == Partial
    ensures Reaches(s, [Reconcile(1, CheckStatus)] + [Reconcile(1, ReadSnapshot)],
                    PutReader(s, 1, Scanning(s.row.ops, 0)))
  {
    hide WorkerMove, Reaches;
    var a, b := PutReader(s, 1, Cleared), PutReader(s, 1, Scanning(s.row.ops, 0));
    assert Apply(s, Reconcile(1, CheckStatus)) == Some(a);
    assert a.reconcilers[1 := Scanning(s.row.ops, 0)] == b.reconcilers;
    assert Apply(a, Reconcile(1, ReadSnapshot)) == Some(b);
    One(s, Reconcile(1, CheckStatus), a);
    One(a, Reconcile(1, ReadSnapshot), b);
    Then(s, [Reconcile(1, CheckStatus)], a, [Reconcile(1, ReadSnapshot)], b);
  }

  /** Reconciler 1 has read that the second operation was never claimed, while call 1 still can claim it. */
  predicate BothAtSecond(start: Sys, s: Sys) {
    && |s.row.ops| == |s.calls| == |start.row.ops| >= 2 && Unreached(s.row.ops, 1) && s.row.status == Partial
    && s.row.leaseOwner == Some(1) && s.row.leaseExpires == Some(s.clock + 10)
    && (forall i | 1 <= i < |s.calls| :: s.calls[i] == 0)
    && s.workers == map[1 := Looping(Issued, Statuses(start.row.ops), 1)]
    && s.reconcilers == map[1 := Scanning(s.row.ops, 1)]
  }

  lemma UntilBothAtSecond(start: Sys) returns (steps: seq<Step>, s: Sys)
    requires Init(start) && |start.row.ops| >= 2
    ensures Reaches(start, steps, s) && WithoutResume(steps) && BothAtSecond(start, s)
  {
    hide Reaches, Init;
    FenceNothing(start);
    var a := PutReader(start, 1, Fencing(Issued));
    var applied, b := ApplyFirst(a);
    GoesOn(b);
    var c := PutReader(b, 1, Scanning(b.row.ops, 0));
    SkipFirst(c, 1, b.row.ops);
    s := PutReader(c, 1, Scanning(b.row.ops, 1));
    var goesOn := [Reconcile(1, CheckStatus)] + [Reconcile(1, ReadSnapshot)];
    Then(start, [Reconcile(1, Fence)], a, applied, b);
    Then(start, [Reconcile(1, Fence)] + applied, b, goesOn, c);
    Then(start, [Reconcile(1, Fence)] + applied + goesOn, c, [Reconcile(1, SkipRow)], s);
    steps := [Reconcile(1, Fence)] + applied + goesOn + [Reconcile(1, SkipRow)];
    NoReconcilersYet(start);
  }

  lemma NoReconcilersYet(start: Sys)
    requires Init(start)
    ensures start.reconcilers == map[]
  {
  }

  /** The second operation was dispatched, and reconciler 1 does not know. */
  predicate SecondDispatched(start: Sys, s: Sys) {
    && |s.row.ops| == |s.calls| == |start.row.ops| >= 2 && s.row.status == Partial
    && s.row.ops[0].status == Applied && s.row.ops[1].status == Unknown && s.row.ops[1].attempt == 1
    && (forall i | 2 <= i < |s.row.ops| :: s.row.ops[i].status == Issued) && s.calls[1] == 1
    && s.row.leaseOwner == None && s.row.leaseExpires == None && 2 !in s.workers
    && 1 in s.reconcilers && s.reconcilers[1].Scanning? && s.reconcilers[1].next == 1
    && Unreached(s.reconcilers[1].rows, 1) && |s.reconcilers[1].rows| == |s.row.ops|
  }

  /** Call 1 calls the adapter of the second operation. */
  lemma CallSecond(start: Sys, s: Sys) returns (t: Sys)
    requires BothAtSecond(start, s) && Unreached(start.row.ops, 0)
    ensures Reaches(s, [Work(1, ClaimOp(7, 10))] + [Work(1, CallAdapter)], t)
    ensures t == Put(s.(row := Dispatched(s.row, 1, s.clock), calls := s.calls[1 := 1]), 1,
                     Calling(Issued, Statuses(start.row.ops), 1, 7, 1))
  {
    hide Reaches, Apply;
    var snapshot := Statuses(start.row.ops);
    var w, v := Dispatching(Issued, snapshot, 1, 7, 1), Calling(Issued, snapshot, 1, 7, 1);
    ClaimTheOperation(s, 1, Issued, snapshot, 1);
    var a := Put(s.(row := Dispatched(s.row, 1, s.clock)), 1, w);
    One(s, Work(1, ClaimOp(7, 10)), a);
    CallTheAdapter(a, 1, w);
    PutTwice(s.(row := Dispatched(s.row, 1, s.clock), calls := s.calls[1 := 1]), 1, w, v);
    t := Put(a.(calls := s.calls[1 := 1]), 1, v);
    One(a, Work(1, CallAdapter), t);
    Then(s, [Work(1, ClaimOp(7, 10))], a, [Work(1, CallAdapter)], t);
  }

  /** It cannot tell what became of it. */
  lemma DispatchSecond(start: Sys, s: Sys) returns (steps: seq<Step>, t: Sys)
    requires BothAtSecond(start, s) && Unreached(start.row.ops, 0)
    ensures Reaches(s, steps, t) && WithoutResume(steps) && SecondDispatched(start, t)
  {
    hide Reaches, Apply, PersistedAggregate, WithoutResume;
    var b := CallSecond(start, s);
    UnknownSecond(WithOpStatus(b.row, 1, PlanStatus.Unknown), Issued);
    var answers := RecordAnswer(b, 1, b.workers[1], PlanStatus.Unknown);
    t := Put(b.(row := Recorded(b.row, 1, Receipt(PlanStatus.Unknown, 1, Some(7)))), 1, Stopped);
    Then(s, [Work(1, ClaimOp(7, 10))] + [Work(1, CallAdapter)], b, answers, t);
    steps := [Work(1, ClaimOp(7, 10))] + [Work(1, CallAdapter)] + answers;
    OneOf(Work(1, ClaimOp(7, 10)), 1);
    OneOf(Work(1, CallAdapter), 1);
    NoneResumes([Work(1, ClaimOp(7, 10))], [Work(1, CallAdapter)]);
    NoneResumes([Work(1, ClaimOp(7, 10))] + [Work(1, CallAdapter)], answers);
  }

  // ---- The stale verdict -----------------------------------------------------------------

  /** The operations from the second up to k are on offer, the second although it was dispatched. */
  predicate Offering(s: Sys, k: nat) {
    && 2 <= k <= |s.row.ops| == |s.calls| && s.row.status == Partial
    && s.row.ops[0].status == Applied && s.row.ops[1].attempt == 1 && s.calls[1] == 1
    && (forall i | 1 <= i < k :: s.row.ops[i].status == RetryableNotApplied && s.row.ops[i].reconciled)
    && (forall i | k <= i < |s.row.ops| :: s.row.ops[i].status == Issued)
    && s.row.leaseOwner == None && s.row.leaseExpires == None && 2 !in s.workers
    && 1 in s.reconcilers && s.reconcilers[1].Scanning? && s.reconcilers[1].next == k
    && Unreached(s.reconcilers[1].rows, 1) && |s.reconcilers[1].rows| == |s.row.ops|
  }

  lemma PartlyOffered(statuses: seq<PlanStatus>, k: nat)
    requires 2 <= k <= |statuses| && statuses[0] == Applied
    requires forall i | 1 <= i < |statuses| :: statuses[i] == if i < k then RetryableNotApplied else Issued
    ensures PersistedAggregate(statuses) == Partial
  {
    assert statuses[0] in statuses && statuses[1] in statuses;
    forall st | st in statuses ensures st in {Applied, RetryableNotApplied, Issued} {
      var i :| 0 <= i < |statuses| && statuses[i] == st;
    }
  }

  /** The verdict on the operation at k. */
  lemma OfferNext(s: Sys, k: nat) returns (t: Sys)
    requires 1 <= k < |s.row.ops| && (if k == 1 then SecondDispatched(s, s) else Offering(s, k))
    ensures Apply(s, Reconcile(1, RecordVerdict)) == Some(t) && Offering(t, k + 1)
  {
    hide WorkerMove, PersistedAggregate;
    var rows := s.reconcilers[1].rows;
    var receipt := VerdictReceipt(rows[k], RetryableNotApplied);
    PartlyOffered(WithOpStatus(s.row, k, RetryableNotApplied), k + 1);
    t := PutReader(s.(row := RecordReconciliation(s.row, k, receipt).value), 1, Scanning(rows, k + 1));
  }

  lemma {:induction false} OfferRest(start: Sys, before: seq<Step>, s: Sys, k: nat) returns (steps: seq<Step>, t: Sys)
    requires Run(start, before) == Some(s) && WithoutResume(before) && Offering(s, k)
    ensures Run(start, steps) == Some(t) && WithoutResume(steps) && Offering(t, |t.row.ops|)
    decreases |s.row.ops| - k
  {
    hide Apply, Run;
    if k == |s.row.ops| {
      steps, t := before, s;
    } else {
      var u := OfferNext(s, k);
      OpsStay(s, k, u);
      ExtendRun(start, before, s, Reconcile(1, RecordVerdict), u);
      steps, t := OfferRest(start, before + [Reconcile(1, RecordVerdict)], u, k + 1);
    }
  }

  lemma OpsStay(s: Sys, k: nat, t: Sys)
    requires Apply(s, Reconcile(1, RecordVerdict)) == Some(t) && 1 in s.reconcilers
    ensures |t.row.ops| == |s.row.ops|
  {
    ReconcilerMoveOps(s.row, s.clock, Some(s.reconcilers[1]), RecordVerdict);
    hide ReconcilerMove, WorkerMove;
  }

  /** Everything behind the first operation is on offer, the second although it was dispatched. */
  lemma UntilStale(start: Sys) returns (steps: seq<Step>, s: Sys)
    requires Init(start) && |start.row.ops| >= 2
    ensures Run(start, steps) == Some(s) && WithoutResume(steps) && Offering(s, |s.row.ops|)
  {
    StartIsUnreached(start);
    hide Reaches, Init, Apply;
    var before, a := UntilBothAtSecond(start);
    var dispatch, b := DispatchSecond(start, a);
    Then(start, before, a, dispatch, b);
    IsRun(start, before + dispatch, b);
    var c := OfferNext(b, 1);
    ExtendRun(start, before + dispatch, b, Reconcile(1, RecordVerdict), c);
    steps, s := OfferRest(start, before + dispatch + [Reconcile(1, RecordVerdict)], c, 2);
  }

  /** One resume call, on its own, dispatches the second operation again. */
  lemma ResumeOnce(s: Sys) returns (call: seq<Step>, t: Sys)
    requires Offering(s, |s.row.ops|)
    ensures Run(s, call) == Some(t) && ByCall(call, 2) && |t.calls| > 1 && t.calls[1] == 2
  {
    hide Reaches, Run;
    ReplayGuard(s.row);
    var guard := PassGuard(s, 2);
    var a := Put(s, 2, GuardPassed);
    var calls := ResumeCalls(a, 2, 1);
    t := Called(a, 2, RetryableNotApplied, 1);
    Then(s, guard, a, calls, t);
    call := guard + calls;
    IsRun(s, call, t);
  }

  lemma OfferedIsNotFresh(start: Sys, steps: seq<Step>, s: Sys)
    requires Init(start) && Run(start, steps) == Some(s) && Offering(s, |s.row.ops|)
    ensures !VerdictsFresh(start, steps)
  {
    if VerdictsFresh(start, steps) {
      AtMostOnceDispatch(start, steps, s);
      assert false;
    }
  }

  /** Every plan of two or more operations has a run of one confirm and one reconcile call in which a verdict
      is stale, after which one resume call, with nobody else about, calls an adapter for the second time. */
  lemma UnfencedReconcilerDispatchesTwice(start: Sys)
    requires Init(start) && |start.row.ops| >= 2
    ensures exists steps, s, call, t ::
              && Run(start, steps) == Some(s) && WithoutResume(steps) && !VerdictsFresh(start, steps)
              && Run(s, call) == Some(t) && ByCall(call, 2) && |t.calls| > 1 && t.calls[1] == 2
  {
    var steps, s := UntilStale(start);
    OfferedIsNotFresh(start, steps, s);
    hide Init, Run, VerdictsFresh, WithoutResume, ByCall, Offering;
    var call, t := ResumeOnce(s);
  }

  /** So without resume verdicts are always fresh for plans of one operation, and for no others. */
  lemma FreshWithoutResumeExactlyForOneOperation(start: Sys)
    requires Init(start)
    ensures (forall steps | WithoutResume(steps) :: VerdictsFresh(start, steps)) <==> |start.row.ops| == 1
  {
    hide VerdictsFresh, FencesHeld, WithoutResume;
    if |start.row.ops| == 1 {
      forall steps | WithoutResume(steps) ensures VerdictsFresh(start, steps) {
        OneOperationIsFenced(start, steps);
        FencedVerdictsAreFresh(start, steps);
      }
    } else {
      UnfencedReconcilerDispatchesTwice(start);
    }
  }
}
