/** What the two races do to plans of every size that admits them. */
module ProtocolFailures {
  import opened Wrappers
  import opened WritePlans
  import opened PlanRows
  import opened WriteProtocol
  import opened ProtocolAttempts
  import opened ProtocolOrder
  import opened ProtocolRaces

  lemma StartIsUnreached(start: Sys)
    requires Init(start)
    ensures Unreached(start.row.ops, 0) && |start.row.ops| == |start.calls|
    ensures forall i | 0 <= i < |start.calls| :: start.calls[i] == 0
  {
    forall i | 0 <= i < |start.row.ops| ensures start.row.ops[i].status == Issued && start.row.ops[i].attempt == 0 {
      assert start.row.ops[i] in start.row.ops;
    }
    forall i | 0 <= i < |start.calls| ensures start.calls[i] == 0 { assert start.calls[i] in start.calls; }
  }

  lemma Wait(s: Sys, elapsed: nat)
    ensures Reaches(s, [Tick(elapsed)], s.(clock := s.clock + elapsed))
  {
    One(s, Tick(elapsed), s.(clock := s.clock + elapsed));
  }

  /** The confirming call that wins the plan. */
  function Won(start: Sys): Sys {
    Put(start.(row := Leased(start.row, 1, start.clock), winners := start.winners + [1]), 1, Claimed(Issued))
  }

  lemma Win(start: Sys)
    requires Init(start)
    ensures Reaches(start, [Work(1, ConfirmClaim(start.clock, 10))], Won(start))
  {
    ClaimIssued(start, 1);
    One(start, Work(1, ConfirmClaim(start.clock, 10)), Won(start));
  }

  // ---- Twice -----------------------------------------------------------------------

  /** Everything is offered, and reconciler 1 still believes that nothing was ever claimed. */
  predicate AllOffered(start: Sys, s: Sys) {
    && s.row.ops == Offers(start.row.ops, 0, |start.row.ops|) && s.row.status == RetryableNotApplied
    && s.row.leaseOwner == None && s.row.leaseExpires == None && s.calls == start.calls
    && 2 !in s.workers && 3 !in s.workers && 3 !in s.reconcilers
    && 1 in s.reconcilers && s.reconcilers[1] == Scanning(start.row.ops, 0)
  }

  /** An executor wins the plan and dies; reconcilers 1 and 2 read it, and 2 offers every operation. */
  lemma UntilOffered(start: Sys) returns (steps: seq<Step>, s: Sys)
    requires Init(start)
    ensures Reaches(start, steps, s) && AllOffered(start, s)
  {
    StartIsUnreached(start);
    var ops := start.row.ops;
    Win(start);
    var a := Won(start);
    var b := a.(clock := a.clock + 10);
    Wait(a, 10);
    var c := PutReader(b.(row := Fenced(b.row)), 1, Scanning(ops, 0));
    var first := FenceAndRead(b, 1);
    var d := PutReader(c.(row := Fenced(c.row)), 2, Scanning(ops, 0));
    var second := FenceAndRead(c, 2);
    var third := OfferUpTo(d, 2, ops, 0, |ops|);
    s := AfterOffers(d, 2, ops, 0, |ops|);
    hide Reaches, Init;
    Then(start, [Work(1, ConfirmClaim(start.clock, 10))], a, [Tick(10)], b);
    Then(start, [Work(1, ConfirmClaim(start.clock, 10))] + [Tick(10)], b, first, c);
    Then(start, [Work(1, ConfirmClaim(start.clock, 10))] + [Tick(10)] + first, c, second, d);
    Then(start, [Work(1, ConfirmClaim(start.clock, 10))] + [Tick(10)] + first + second, d, third, s);
    steps := [Work(1, ConfirmClaim(start.clock, 10))] + [Tick(10)] + first + second + third;
  }

  lemma OffersCanBeResumed(rows: seq<OpRow>, row: PlanRow)
    requires Unreached(rows, 0) && row.ops == Offers(rows, 0, |rows|) && row.status == RetryableNotApplied
    ensures ResumeGuard(row) && row.ops[0].status == RetryableNotApplied
  {
    ReplayGuard(row);
  }

  /** Operation 0 was dispatched by a resumed call that died, and the plan is fenced again. */
  predicate FirstDispatched(start: Sys, s: Sys) {
    && |s.row.ops| == |start.row.ops| == |s.calls| > 0 && s.calls[0] == 1
    && s.row.ops[0].status == Executing && s.row.ops[0].attempt == 1
    && (forall i | 1 <= i < |s.row.ops| :: s.row.ops[i] == Offered(start.row.ops[i]))
    && s.row.leaseOwner == None && s.row.leaseExpires == None && 3 !in s.workers
    && 1 in s.reconcilers && s.reconcilers[1] == Scanning(start.row.ops, 0)
  }

  lemma UntilFirstDispatched(start: Sys) returns (steps: seq<Step>, s: Sys)
    requires Init(start)
    ensures Reaches(start, steps, s) && FirstDispatched(start, s)
  {
    hide Reaches, PersistedAggregate, WorkerMove, ReconcilerMove;
    StartIsUnreached(start);
    var before, a := UntilOffered(start);
    hide Init;
    OffersCanBeResumed(start.row.ops, a.row);
    var guard := PassGuard(a, 2);
    var b := Put(a, 2, GuardPassed);
    var calls := ResumeCalls(b, 2, 0);
    var c := Called(b, 2, RetryableNotApplied, 0);
    Wait(c, 10);
    var d := c.(clock := c.clock + 10);
    var fence := FenceAndRead(d, 3);
    s := PutReader(d.(row := Fenced(d.row)), 3, Scanning(d.row.ops, 0));
    Then(start, before, a, guard, b);
    Then(start, before + guard, b, calls, c);
    Then(start, before + guard + calls, c, [Tick(10)], d);
    Then(start, before + guard + calls + [Tick(10)], d, fence, s);
    steps := before + guard + calls + [Tick(10)] + fence;
  }

  /** Reconciler 1 offers the dispatched operation once more. */
  lemma StaleOffer(start: Sys, s: Sys) returns (t: Sys)
    requires Unreached(start.row.ops, 0) && FirstDispatched(start, s)
    ensures Apply(s, Reconcile(1, RecordVerdict)) == Some(t)
    ensures t.row.status == RetryableNotApplied && t.row.leaseOwner == None && t.row.leaseExpires == None
    ensures t.calls == s.calls && t.workers == s.workers && |t.row.ops| == |s.row.ops|
    ensures forall i | 0 <= i < |t.row.ops| :: t.row.ops[i].status == RetryableNotApplied && t.row.ops[i].reconciled
  {
    hide WorkerMove, PersistedAggregate;
    var rows := start.row.ops;
    var statuses := WithOpStatus(s.row, 0, RetryableNotApplied);
    assert forall i | 0 <= i < |statuses| :: statuses[i] == RetryableNotApplied;
    AllOnOffer(statuses);
    var outcome := RecordReconciliation(s.row, 0, VerdictReceipt(rows[0], RetryableNotApplied));
    t := s.(row := outcome.value, reconcilers := s.reconcilers[1 := Scanning(rows, 1)]);
  }

  lemma AllOnOffer(statuses: seq<PlanStatus>)
    requires |statuses| > 0 && forall i | 0 <= i < |statuses| :: statuses[i] == RetryableNotApplied
    ensures PersistedAggregate(statuses) == RetryableNotApplied
  {
    assert statuses[0] in statuses;
  }

  lemma IsRun(s: Sys, steps: seq<Step>, t: Sys)
    requires Reaches(s, steps, t)
    ensures Run(s, steps) == Some(t) && VerdictsFresh(s, steps)
  {
  }

  /** A resumed call is past its guard and calls the adapter of operation 0. */
  lemma CallsAgain(s: Sys) returns (steps: seq<Step>, t: Sys)
    requires s.row.status == RetryableNotApplied && s.row.leaseOwner == None && s.row.leaseExpires == None
    requires |s.row.ops| == |s.calls| > 0 && 3 !in s.workers
    requires forall i | 0 <= i < |s.row.ops| :: s.row.ops[i].status == RetryableNotApplied && s.row.ops[i].reconciled
    ensures Run(s, steps) == Some(t) && t.calls == s.calls[0 := s.calls[0] + 1]
  {
    hide Reaches, Run;
    ReplayGuard(s.row);
    var guard := PassGuard(s, 3);
    var a := Put(s, 3, GuardPassed);
    var calls := ResumeCalls(a, 3, 0);
    t := Called(a, 3, RetryableNotApplied, 0);
    Then(s, guard, a, calls, t);
    steps := guard + calls;
    IsRun(s, steps, t);
  }

  /** The condition on verdicts is needed: every plan, of any size, has a run with one stale verdict
      and two resume calls in which an adapter is called twice. */
  lemma StaleVerdictDispatchesTwice(start: Sys)
    requires Init(start)
    ensures exists steps, s ::
              Run(start, steps) == Some(s) && |s.calls| > 0 && s.calls[0] == 2 && !VerdictsFresh(start, steps)
  {
    hide Init, Reaches, Run, VerdictsFresh, Apply;
    StartIsUnreached(start);
    var before, a := UntilFirstDispatched(start);
    IsRun(start, before, a);
    var b := StaleOffer(start, a);
    ExtendRun(start, before, a, Reconcile(1, RecordVerdict), b);
    var again, s := CallsAgain(b);
    RunThen(start, before + [Reconcile(1, RecordVerdict)], b, again, s);
    var steps := before + [Reconcile(1, RecordVerdict)] + again;
    assert |s.calls| > 0 && s.calls[0] == 2;
    if VerdictsFresh(start, steps) {
      AtMostOnceDispatch(start, steps, s);
      assert false;
    }
  }

  lemma ExtendRun(start: Sys, steps: seq<Step>, s: Sys, step: Step, t: Sys)
    requires Run(start, steps) == Some(s) && Apply(s, step) == Some(t)
    ensures Run(start, steps + [step]) == Some(t)
  {
    hide Apply;
    assert (steps + [step])[..|steps|] == steps;
  }

  // ---- Out of order ------------------------------------------------------------------

  /** The first operation was applied, by a call that died then; the others were never reached. */
  predicate FirstApplied(start: Sys, s: Sys) {
    && |s.row.ops| == |start.row.ops| == |s.calls| && Unreached(s.row.ops, 1)
    && s.row.status == Partial && s.row.leaseExpires == Some(s.clock)
    && (forall i | 1 <= i < |s.calls| :: s.calls[i] == 0)
    && 2 !in s.workers && 3 !in s.workers && s.reconcilers == map[]
  }

  lemma AppliedFirst(statuses: seq<PlanStatus>, rest: PlanStatus)
    requires |statuses| > 1 && statuses[0] == Applied && rest in {Issued, RetryableNotApplied}
    requires forall i | 1 <= i < |statuses| :: statuses[i] == rest
    ensures PersistedAggregate(statuses) == Partial
  {
    assert statuses[0] in statuses && statuses[1] in statuses;
  }

  /** A plan that nobody claimed, whatever reconcilers there are. */
  predicate Unclaimed(s: Sys) {
    && s.workers == map[] && s.row.status == Issued && s.row.leaseOwner == None && s.row.leaseExpires == None
    && Unreached(s.row.ops, 0) && |s.calls| == |s.row.ops| && forall i | 0 <= i < |s.calls| :: s.calls[i] == 0
  }

  /** Call 1 has applied the first operation and is about to claim the second. */
  predicate HalfApplied(s: Sys, t: Sys) {
    && |t.row.ops| == |s.row.ops| == |t.calls| && Unreached(t.row.ops, 1) && t.row.status == Partial
    && t.row.leaseOwner == Some(1) && t.row.leaseExpires == Some(t.clock + 10)
    && (forall i | 1 <= i < |t.calls| :: t.calls[i] == 0)
    && t.workers == map[1 := Looping(Issued, Statuses(s.row.ops), 1)] && t.reconcilers == s.reconcilers
  }

  lemma ApplyFirst(s: Sys) returns (steps: seq<Step>, t: Sys)
    requires Unclaimed(s) && |s.row.ops| >= 2
    ensures Reaches(s, steps, t) && WithoutResume(steps) && HalfApplied(s, t)
  {
    hide Reaches, PersistedAggregate, Apply, WithoutResume, ByCall, IsResume;
    ClaimIssued(s, 1);
    var base := s.(winners := s.winners + [1]);
    var a := Put(base.(row := Leased(s.row, 1, s.clock)), 1, Claimed(Issued));
    One(s, Work(1, ConfirmClaim(s.clock, 10)), a);
    var calls := DispatchFirst(base, a, 1, Issued, 0);
    var b := Called(base, 1, Issued, 0);
    AppliedFirst(WithOpStatus(b.row, 0, PlanStatus.Applied), Issued);
    var answers := RecordAnswer(b, 1, b.workers[1], PlanStatus.Applied);
    t := Put(b.(row := Recorded(b.row, 0, Receipt(PlanStatus.Applied, 1, Some(7)))), 1,
             Looping(Issued, Statuses(s.row.ops), 1));
    Then(s, [Work(1, ConfirmClaim(s.clock, 10))], a, calls, b);
    Then(s, [Work(1, ConfirmClaim(s.clock, 10))] + calls, b, answers, t);
    steps := [Work(1, ConfirmClaim(s.clock, 10))] + calls + answers;
    OneOf(Work(1, ConfirmClaim(s.clock, 10)), 1);
    NoneResumes([Work(1, ConfirmClaim(s.clock, 10))], calls);
    NoneResumes([Work(1, ConfirmClaim(s.clock, 10))] + calls, answers);
  }

  lemma StartIsUnclaimed(start: Sys)
    requires Init(start)
    ensures Unclaimed(start)
  {
    StartIsUnreached(start);
  }

  lemma UntilFirstApplied(start: Sys) returns (steps: seq<Step>, s: Sys)
    requires Init(start) && |start.row.ops| >= 2
    ensures Reaches(start, steps, s) && FirstApplied(start, s)
  {
    StartIsUnclaimed(start);
    var before, t := ApplyFirst(start);
    Wait(t, 10);
    s := t.(clock := t.clock + 10);
    hide Reaches;
    Then(start, before, t, [Tick(10)], s);
    steps := before + [Tick(10)];
  }

  /** All but the first operation are offered, and calls 2 and 3 are past their guards. */
  predicate BothPastGuard(start: Sys, s: Sys) {
    && |s.row.ops| == |start.row.ops| == |s.calls| > 1 && s.row.ops[0].status == Applied
    && (forall i | 1 <= i < |s.row.ops| :: s.row.ops[i].status == RetryableNotApplied && s.row.ops[i].attempt == 0)
    && s.row.status == Partial && s.row.leaseOwner == None && s.row.leaseExpires == None
    && (forall i | 1 <= i < |s.calls| :: s.calls[i] == 0)
    && 2 in s.workers && s.workers[2] == GuardPassed && 3 in s.workers && s.workers[3] == GuardPassed
  }

  lemma SkipFirst(s: Sys, rid: nat, rows: seq<OpRow>)
    requires rid in s.reconcilers && s.reconcilers[rid] == Scanning(rows, 0) && |rows| > 0 && rows[0].status == Applied
    ensures Reaches(s, [Reconcile(rid, SkipRow)], PutReader(s, rid, Scanning(rows, 1)))
  {
    hide WorkerMove;
    assert Apply(s, Reconcile(rid, SkipRow)) == Some(PutReader(s, rid, Scanning(rows, 1)));
    One(s, Reconcile(rid, SkipRow), PutReader(s, rid, Scanning(rows, 1)));
  }

  lemma UntilBothPastGuard(start: Sys) returns (steps: seq<Step>, s: Sys)
    requires Init(start) && |start.row.ops| >= 2
    ensures Reaches(start, steps, s) && BothPastGuard(start, s)
  {
    hide Reaches, Init, PersistedAggregate, WorkerMove, ReconcilerMove;
    var before, a := UntilFirstApplied(start);
    var rows := a.row.ops;
    var fence := FenceAndRead(a, 1);
    var b := PutReader(a.(row := Fenced(a.row)), 1, Scanning(rows, 0));
    SkipFirst(b, 1, rows);
    var c := PutReader(b, 1, Scanning(rows, 1));
    var offers := OfferUpTo(c, 1, rows, 1, |rows|);
    var d := AfterOffers(c, 1, rows, 1, |rows|);
    ReplayGuard(d.row);
    var two := PassGuard(d, 2);
    var e := Put(d, 2, GuardPassed);
    var three := PassGuard(e, 3);
    s := Put(e, 3, GuardPassed);
    Then(start, before, a, fence, b);
    Then(start, before + fence, b, [Reconcile(1, SkipRow)], c);
    Then(start, before + fence + [Reconcile(1, SkipRow)], c, offers, d);
    Then(start, before + fence + [Reconcile(1, SkipRow)] + offers, d, two, e);
    Then(start, before + fence + [Reconcile(1, SkipRow)] + offers + two, e, three, s);
    steps := before + fence + [Reconcile(1, SkipRow)] + offers + two + three;
  }

  /** Call 3 dispatches operation 1 and cannot tell what became of it. */
  predicate SecondUnknown(start: Sys, s: Sys) {
    && |s.row.ops| == |start.row.ops| == |s.calls| > 2
    && s.row.ops[0].status == Applied && s.row.ops[1].status == Unknown
    && s.row.ops[2].status == RetryableNotApplied && s.row.ops[2].attempt == 0 && s.calls[2] == 0
    && s.row.status == Partial && s.row.leaseOwner == None && s.row.leaseExpires == None
    && 2 in s.workers && s.workers[2] == GuardPassed
  }

  lemma UnknownSecond(statuses: seq<PlanStatus>, rest: PlanStatus)
    requires |statuses| >= 2 && statuses[0] == Applied && statuses[1] == Unknown
    requires rest in {Issued, RetryableNotApplied} && forall i | 2 <= i < |statuses| :: statuses[i] == rest
    ensures PersistedAggregate(statuses) == Partial
  {
    assert statuses[0] in statuses && statuses[1] in statuses;
    forall st | st in statuses ensures st in {Applied, Unknown, rest} {
      var i :| 0 <= i < |statuses| && statuses[i] == st;
    }
  }

  lemma UntilSecondUnknown(start: Sys) returns (steps: seq<Step>, s: Sys)
    requires Init(start) && |start.row.ops| >= 3
    ensures Reaches(start, steps, s) && SecondUnknown(start, s)
  {
    hide Reaches, Init, PersistedAggregate, WorkerMove, ReconcilerMove, Offers;
    var before, a := UntilBothPastGuard(start);
    var calls := ResumeCalls(a, 3, 1);
    var b := Called(a, 3, RetryableNotApplied, 1);
    UnknownSecond(WithOpStatus(b.row, 1, PlanStatus.Unknown), RetryableNotApplied);
    var answers := RecordAnswer(b, 3, b.workers[3], PlanStatus.Unknown);
    s := Put(b.(row := Recorded(b.row, 1, Receipt(PlanStatus.Unknown, 1, Some(7)))), 3, Stopped);
    Then(start, before, a, calls, b);
    Then(start, before + calls, b, answers, s);
    steps := before + calls + answers;
  }

  /** The condition on claims is needed: every plan of three or more operations has a run, with no
      stale verdict, in which a resume call that was past its guard dispatches operation 2 although
      the outcome of operation 1 is not known. */
  lemma StaleGuardBreaksOrder(start: Sys)
    requires Init(start) && |start.row.ops| >= 3
    ensures exists steps, s ::
              && Run(start, steps) == Some(s) && VerdictsFresh(start, steps) && !ClaimsOrderly(start, steps)
              && |s.row.ops| == |s.calls| == |start.row.ops|
              && s.row.ops[1].status == Unknown && s.row.ops[2].attempt == 1 && s.calls[2] == 1
  {
    hide Init, Reaches, Run, VerdictsFresh, ClaimsOrderly, Apply;
    var before, a := UntilSecondUnknown(start);
    var calls := ResumeCalls(a, 2, 2);
    var s := Called(a, 2, RetryableNotApplied, 2);
    Then(start, before, a, calls, s);
    var steps := before + calls;
    IsRun(start, steps, s);
    assert s.row.ops[1].status == Unknown && s.row.ops[2].attempt == 1 && s.calls[2] == 1;
    if ClaimsOrderly(start, steps) {
      InOrderExecution(start, steps, s);
      FrontierIsFirst(s.row.ops, 1);
      assert false;
    }
  }
}
