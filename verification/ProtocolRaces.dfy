/** Stretches of runs, of calls and of reconcilers, out of which the failing runs are put together. */
module ProtocolRaces {
  import opened Wrappers
  import opened WritePlans
  import opened PlanRows
  import opened WriteProtocol

  /** A run from s to t without a stale replay verdict. */
  ghost predicate Reaches(s: Sys, steps: seq<Step>, t: Sys) {
    Run(s, steps) == Some(t) && VerdictsFresh(s, steps)
  }

  lemma One(s: Sys, step: Step, t: Sys)
    requires Apply(s, step) == Some(t) && VerdictIsFresh(s, step)
    ensures Reaches(s, [step], t)
  {
    assert [step][..0] == [];
    assert Run(s, []) == Some(s) && VerdictsFresh(s, []);
  }

  lemma Nothing(s: Sys)
    ensures Reaches(s, [], s)
  {
  }

  lemma {:induction false} RunThen(s: Sys, a: seq<Step>, t: Sys, b: seq<Step>, u: Sys)
    requires Run(s, a) == Some(t) && Run(t, b) == Some(u)
    ensures Run(s, a + b) == Some(u)
    decreases |b|
  {
    if b == [] {
      assert a + b == a;
    } else {
      var init := b[..|b| - 1];
      RunThen(s, a, t, init, Run(t, init).value);
      assert (a + b)[..|a + b| - 1] == a + init;
    }
  }

  lemma LastStep(s: Sys, steps: seq<Step>, t: Sys) returns (m: Sys)
    requires steps != [] && Reaches(s, steps, t)
    ensures Reaches(s, steps[..|steps| - 1], m) && Apply(m, steps[|steps| - 1]) == Some(t)
    ensures VerdictIsFresh(m, steps[|steps| - 1])
  {
    hide Apply, VerdictIsFresh;
    m := Run(s, steps[..|steps| - 1]).value;
  }

  lemma OneMore(s: Sys, steps: seq<Step>, m: Sys, step: Step, t: Sys)
    requires Reaches(s, steps, m) && Apply(m, step) == Some(t) && VerdictIsFresh(m, step)
    ensures Reaches(s, steps + [step], t)
  {
    hide Apply, VerdictIsFresh;
    assert (steps + [step])[..|steps|] == steps;
  }

  lemma {:induction false} Then(s: Sys, a: seq<Step>, t: Sys, b: seq<Step>, u: Sys)
    requires Reaches(s, a, t) && Reaches(t, b, u)
    ensures Reaches(s, a + b, u)
    decreases |b|
  {
    if b == [] {
      assert a + b == a;
    } else {
      hide Reaches, Apply, VerdictIsFresh;
      var m := LastStep(t, b, u);
      var init, last := b[..|b| - 1], b[|b| - 1];
      Then(s, a, t, init, m);
      OneMore(s, a + init, m, last, u);
      assert a + b == a + init + [last];
    }
  }

  /** All the steps are those of one call. */
  predicate ByCall(steps: seq<Step>, owner: Token) {
    forall step | step in steps :: step.Work? && step.owner == owner
  }

  lemma OneOf(step: Step, owner: Token)
    requires step.Work? && step.owner == owner && !step.action.ReadPlan?
    ensures ByCall([step], owner) && WithoutResume([step])
  {
  }

  lemma NoneResumes(a: seq<Step>, b: seq<Step>)
    requires WithoutResume(a) && WithoutResume(b)
    ensures WithoutResume(a + b)
  {
  }

  function Put(s: Sys, owner: Token, w: Worker): Sys {
    s.(workers := s.workers[owner := w])
  }

  lemma PutTwice(s: Sys, owner: Token, v: Worker, w: Worker)
    ensures Put(Put(s, owner, v), owner, w) == Put(s, owner, w)
  {
    assert s.workers[owner := v][owner := w] == s.workers[owner := w];
  }

  // ---- Steps of calls ------------------------------------------------------------

  lemma PassGuard(s: Sys, owner: Token) returns (steps: seq<Step>)
    requires owner !in s.workers && ResumeGuard(s.row)
    ensures Reaches(s, steps, Put(s, owner, GuardPassed)) && ByCall(steps, owner)
  {
    hide ReconcilerMove, Reaches;
    var a := Put(s, owner, PlanRead(s.row.status));
    assert Apply(s, Work(owner, ReadPlan)) == Some(a);
    One(s, Work(owner, ReadPlan), a);
    PutTwice(s, owner, PlanRead(s.row.status), GuardPassed);
    assert Apply(a, Work(owner, CheckGuard)) == Some(Put(a, owner, GuardPassed));
    One(a, Work(owner, CheckGuard), Put(a, owner, GuardPassed));
    Then(s, [Work(owner, ReadPlan)], a, [Work(owner, CheckGuard)], Put(s, owner, GuardPassed));
    steps := [Work(owner, ReadPlan)] + [Work(owner, CheckGuard)];
  }

  /** The loop of a call passes what it may not dispatch. */
  lemma {:induction false} SkipTo(s: Sys, owner: Token, claimable: PlanStatus, snapshot: seq<PlanStatus>, to: nat)
    returns (steps: seq<Step>)
    requires owner in s.workers && s.workers[owner] == Looping(claimable, snapshot, 0) && to <= |snapshot|
    requires forall i | 0 <= i < to :: snapshot[i] != claimable
    ensures Reaches(s, steps, Put(s, owner, Looping(claimable, snapshot, to)))
    ensures ByCall(steps, owner) && WithoutResume(steps)
  {
    hide ReconcilerMove, Reaches;
    if to == 0 {
      steps := [];
      Nothing(s);
      assert s.workers[owner := Looping(claimable, snapshot, 0)] == s.workers;
    } else {
      var before := SkipTo(s, owner, claimable, snapshot, to - 1);
      var a := Put(s, owner, Looping(claimable, snapshot, to - 1));
      PutTwice(s, owner, Looping(claimable, snapshot, to - 1), Looping(claimable, snapshot, to));
      assert Apply(a, Work(owner, SkipOperation)) == Some(Put(a, owner, Looping(claimable, snapshot, to)));
      One(a, Work(owner, SkipOperation), Put(a, owner, Looping(claimable, snapshot, to)));
      Then(s, before, a, [Work(owner, SkipOperation)], Put(a, owner, Looping(claimable, snapshot, to)));
      steps := before + [Work(owner, SkipOperation)];
    }
  }

  function Leased(row: PlanRow, owner: Token, now: int): PlanRow {
    row.(status := if row.status == Partial then Partial else Executing, confirmedAt := Coalesce(row.confirmedAt, now),
         leaseOwner := Some(owner), leaseExpires := Some(now + 10))
  }

  /** The operation j is claimed for ten seconds, with attempt token 7. */
  function Dispatched(row: PlanRow, j: nat, now: int): PlanRow
    requires j < |row.ops|
  {
    row.(ops := row.ops[j := row.ops[j].(status := Executing, attempt := row.ops[j].attempt + 1,
                                         attemptToken := Some(7), reconciled := false)],
         leaseExpires := Some(now + 10))
  }

  /** The call that holds `owner` has claimed the plan and is calling the adapter of operation j. */
  function Called(s: Sys, owner: Token, claimable: PlanStatus, j: nat): Sys
    requires j < |s.row.ops| && j < |s.calls|
  {
    s.(row := Dispatched(Leased(s.row, owner, s.clock), j, s.clock),
       workers := s.workers[owner := Calling(claimable, Statuses(s.row.ops), j, 7, s.row.ops[j].attempt + 1)],
       calls := s.calls[j := s.calls[j] + 1])
  }

  lemma ClaimThePlan(s: Sys, owner: Token)
    requires owner in s.workers && s.workers[owner] == GuardPassed
    requires s.row.status in {RetryableNotApplied, Partial} && s.row.leaseOwner == None && s.row.leaseExpires == None
    ensures Apply(s, Work(owner, ResumeClaim(s.clock, 10)))
         == Some(Put(s.(row := Leased(s.row, owner, s.clock)), owner, Claimed(RetryableNotApplied)))
  {
    hide ReconcilerMove;
  }

  lemma ReadTheRecord(s: Sys, owner: Token, claimable: PlanStatus)
    requires owner in s.workers && s.workers[owner] == Claimed(claimable)
    ensures Apply(s, Work(owner, ReadRecord)) == Some(Put(s, owner, Looping(claimable, Statuses(s.row.ops), 0)))
  {
    hide ReconcilerMove;
  }

  lemma ClaimTheOperation(s: Sys, owner: Token, claimable: PlanStatus, snapshot: seq<PlanStatus>, j: nat)
    requires owner in s.workers && s.workers[owner] == Looping(claimable, snapshot, j)
    requires j < |s.row.ops| == |snapshot| && snapshot[j] == claimable && s.row.ops[j].status == claimable
    requires claimable == Issued || claimable == RetryableNotApplied
    requires s.row.leaseOwner == Some(owner) && LeaseLive(s.row, s.clock)
    ensures Apply(s, Work(owner, ClaimOp(7, 10)))
         == Some(Put(s.(row := Dispatched(s.row, j, s.clock)), owner,
                     Dispatching(claimable, snapshot, j, 7, s.row.ops[j].attempt + 1)))
  {
    hide ReconcilerMove;
    assert ClaimOperation(s.row, j, Some(owner), 7, s.clock, 10).value == Dispatched(s.row, j, s.clock);
  }

  lemma CallTheAdapter(s: Sys, owner: Token, w: Worker)
    requires owner in s.workers && s.workers[owner] == w && w.Dispatching? && w.next < |s.calls|
    ensures Apply(s, Work(owner, CallAdapter))
         == Some(Put(s.(calls := s.calls[w.next := s.calls[w.next] + 1]), owner,
                     Calling(w.claimable, w.snapshot, w.next, w.token, w.attempt)))
  {
    hide ReconcilerMove;
  }

  /** From the claim of the plan to the adapter call of operation j. */
  lemma DispatchFirst(s: Sys, claimed: Sys, owner: Token, claimable: PlanStatus, j: nat) returns (steps: seq<Step>)
    requires claimable == Issued || claimable == RetryableNotApplied
    requires j < |s.row.ops| == |s.calls| && s.row.ops[j].status == claimable
    requires forall i | 0 <= i < j :: s.row.ops[i].status != claimable
    requires claimed == Put(s.(row := Leased(s.row, owner, s.clock)), owner, Claimed(claimable))
    ensures Reaches(claimed, steps, Called(s, owner, claimable, j)) && ByCall(steps, owner) && WithoutResume(steps)
  {
    hide Reaches, Apply, Run, ByCall, WithoutResume;
    var snapshot := Statuses(s.row.ops);
    var v := Looping(claimable, snapshot, 0);
    var x := Looping(claimable, snapshot, j);
    var y := Dispatching(claimable, snapshot, j, 7, s.row.ops[j].attempt + 1);
    var a, b := Put(claimed, owner, v), Put(claimed, owner, x);
    var c := Put(claimed.(row := Dispatched(claimed.row, j, s.clock)), owner, y);
    ReadTheRecord(claimed, owner, claimable);
    One(claimed, Work(owner, ReadRecord), a);
    var skipped := SkipTo(a, owner, claimable, snapshot, j);
    PutTwice(claimed, owner, v, x);
    Then(claimed, [Work(owner, ReadRecord)], a, skipped, b);
    ClaimTheOperation(b, owner, claimable, snapshot, j);
    PutTwice(claimed.(row := Dispatched(claimed.row, j, s.clock)), owner, x, y);
    One(b, Work(owner, ClaimOp(7, 10)), c);
    Then(claimed, [Work(owner, ReadRecord)] + skipped, b, [Work(owner, ClaimOp(7, 10))], c);
    CallTheAdapter(c, owner, y);
    LastPut(s, owner, claimable, j, c);
    One(c, Work(owner, CallAdapter), Called(s, owner, claimable, j));
    var front := [Work(owner, ReadRecord)] + skipped;
    Then(claimed, front + [Work(owner, ClaimOp(7, 10))], c, [Work(owner, CallAdapter)], Called(s, owner, claimable, j));
    steps := front + [Work(owner, ClaimOp(7, 10))] + [Work(owner, CallAdapter)];
    DispatchSteps(owner, skipped);
  }

  lemma DispatchSteps(owner: Token, skipped: seq<Step>)
    requires ByCall(skipped, owner) && WithoutResume(skipped)
    ensures var steps :=
              [Work(owner, ReadRecord)] + skipped + [Work(owner, ClaimOp(7, 10))] + [Work(owner, CallAdapter)];
            ByCall(steps, owner) && WithoutResume(steps)
  {
  }

  lemma LastPut(s: Sys, owner: Token, claimable: PlanStatus, j: nat, c: Sys)
    requires j < |s.row.ops| == |s.calls|
    requires c == s.(row := Dispatched(Leased(s.row, owner, s.clock), j, s.clock), workers := c.workers)
    requires owner in c.workers
    requires c.workers == s.workers[owner := Claimed(claimable)][owner := c.workers[owner]]
    ensures Put(c.(calls := c.calls[j := c.calls[j] + 1]), owner,
                Calling(claimable, Statuses(s.row.ops), j, 7, s.row.ops[j].attempt + 1))
         == Called(s, owner, claimable, j)
  {
    var w := Calling(claimable, Statuses(s.row.ops), j, 7, s.row.ops[j].attempt + 1);
    assert c.workers[owner := w] == s.workers[owner := w];
  }

  /** A confirming call wins the plan. */
  lemma ClaimIssued(s: Sys, owner: Token)
    requires owner !in s.workers && s.row.status == Issued && s.row.leaseOwner == None && s.row.leaseExpires == None
    ensures Apply(s, Work(owner, ConfirmClaim(s.clock, 10)))
         == Some(Put(s.(row := Leased(s.row, owner, s.clock), winners := s.winners + [owner]), owner, Claimed(Issued)))
  {
    hide ReconcilerMove;
  }

  /** A call that is past its guard claims the plan and calls the first adapter on offer. */
  lemma ResumeCalls(s: Sys, owner: Token, j: nat) returns (steps: seq<Step>)
    requires owner in s.workers && s.workers[owner] == GuardPassed
    requires s.row.status in {RetryableNotApplied, Partial} && s.row.leaseOwner == None && s.row.leaseExpires == None
    requires j < |s.row.ops| == |s.calls| && s.row.ops[j].status == RetryableNotApplied
    requires forall i | 0 <= i < j :: s.row.ops[i].status != RetryableNotApplied
    ensures Reaches(s, steps, Called(s, owner, RetryableNotApplied, j)) && ByCall(steps, owner)
  {
    hide Reaches, Apply, Run;
    var claimed := Put(s.(row := Leased(s.row, owner, s.clock)), owner, Claimed(RetryableNotApplied));
    ClaimThePlan(s, owner);
    One(s, Work(owner, ResumeClaim(s.clock, 10)), claimed);
    var rest := DispatchFirst(s, claimed, owner, RetryableNotApplied, j);
    Then(s, [Work(owner, ResumeClaim(s.clock, 10))], claimed, rest, Called(s, owner, RetryableNotApplied, j));
    steps := [Work(owner, ResumeClaim(s.clock, 10))] + rest;
  }

  // ---- Answers ----------------------------------------------------------------------

  /** The row after a receipt for operation j that makes, or leaves, the plan PARTIAL. */
  function Recorded(row: PlanRow, j: nat, receipt: Receipt): PlanRow
    requires j < |row.ops|
  {
    row.(status := Partial, ops := row.ops[j := row.ops[j].(status := receipt.status, receipt := Some(receipt))],
         leaseOwner := if IsSuccess(receipt.status) then row.leaseOwner else None,
         leaseExpires := if IsSuccess(receipt.status) then row.leaseExpires else None)
  }

  /** The adapter of a call answers, and the call records the receipt. */
  lemma RecordAnswer(s: Sys, owner: Token, w: Worker, result: ApplyStatus) returns (steps: seq<Step>)
    requires w.Calling? && owner in s.workers && s.workers[owner] == w && AdapterResult(result)
    requires w.next < |s.row.ops| && s.row.ops[w.next].status == Executing && s.row.ops[w.next].attempt == w.attempt
    requires s.row.ops[w.next].attemptToken == Some(w.token)
    requires s.row.leaseOwner == Some(owner) && LeaseLive(s.row, s.clock)
    requires s.row.status == Executing || s.row.status == Partial
    requires PersistedAggregate(WithOpStatus(s.row, w.next, result)) == Partial
    ensures Reaches(s, steps,
                    Put(s.(row := Recorded(s.row, w.next, Receipt(result, w.attempt, Some(w.token)))), owner,
                        if IsSuccess(result) then Looping(w.claimable, w.snapshot, w.next + 1) else Stopped))
    ensures WithoutResume(steps)
  {
    hide ReconcilerMove, Reaches, PersistedAggregate;
    var v := Returned(w.claimable, w.snapshot, w.next, w.token, w.attempt, result);
    var a := Put(s, owner, v);
    assert Apply(s, Work(owner, AdapterReturns(result))) == Some(a);
    One(s, Work(owner, AdapterReturns(result)), a);
    var u := if IsSuccess(result) then Looping(w.claimable, w.snapshot, w.next + 1) else Stopped;
    var row' := Recorded(s.row, w.next, ReceiptOf(v));
    assert RecordReceipt(s.row, w.next, ReceiptOf(v), Some(owner), Some(w.token), s.clock) == Success(row');
    assert Apply(a, Work(owner, Record)) == Some(Put(a.(row := row'), owner, u));
    PutTwice(s.(row := row'), owner, v, u);
    One(a, Work(owner, Record), Put(s.(row := row'), owner, u));
    Then(s, [Work(owner, AdapterReturns(result))], a, [Work(owner, Record)], Put(s.(row := row'), owner, u));
    steps := [Work(owner, AdapterReturns(result))] + [Work(owner, Record)];
  }

  // ---- Reconcilers ----------------------------------------------------------------------

  /** An operation that was never claimed, offered for replay. */
  function Offered(op: OpRow): OpRow {
    op.(status := RetryableNotApplied, receipt := Some(VerdictReceipt(op, RetryableNotApplied)), reconciled := true)
  }

  /** The operations from a up to k offered. */
  function Offers(ops: seq<OpRow>, a: nat, k: nat): (r: seq<OpRow>)
    ensures |r| == |ops| && forall i | 0 <= i < |ops| :: r[i] == if a <= i < k then Offered(ops[i]) else ops[i]
  {
    seq(|ops|, i requires 0 <= i < |ops| => if a <= i < k then Offered(ops[i]) else ops[i])
  }

  /** The snapshot of a plan that nobody touched, or of which the first operation was applied. */
  predicate Unreached(rows: seq<OpRow>, a: nat) {
    && a <= 1 && a < |rows|
    && (a == 1 ==> rows[0].status == Applied)
    && forall i | a <= i < |rows| :: rows[i].status == Issued && rows[i].attempt == 0
  }

  lemma OffersAggregate(rows: seq<OpRow>, a: nat, k: nat, statuses: seq<PlanStatus>)
    requires Unreached(rows, a) && a < k <= |rows| && statuses == Statuses(Offers(rows, a, k))
    ensures PersistedAggregate(statuses) == if a == 0 then RetryableNotApplied else Partial
  {
    assert statuses[a] == RetryableNotApplied && statuses[a] in statuses;
    if a == 1 { assert statuses[0] == Applied && statuses[0] in statuses; }
    forall st | st in statuses ensures st in {RetryableNotApplied, Issued} || (a == 1 && st == Applied) {
      var i :| 0 <= i < |statuses| && statuses[i] == st;
    }
  }

  function AfterOffers(s: Sys, rid: nat, rows: seq<OpRow>, a: nat, k: nat): Sys {
    s.(row := s.row.(ops := Offers(rows, a, k),
                     status := if k == a then s.row.status else if a == 0 then RetryableNotApplied else Partial),
       reconcilers := s.reconcilers[rid := Scanning(rows, k)])
  }

  lemma OfferOne(s: Sys, rid: nat, rows: seq<OpRow>, a: nat, k: nat)
    requires Unreached(rows, a) && a <= k < |rows| && s.row.leaseOwner == None
    ensures var t := AfterOffers(s, rid, rows, a, k);
            Apply(t, Reconcile(rid, RecordVerdict)) == Some(AfterOffers(s, rid, rows, a, k + 1))
            && VerdictIsFresh(t, Reconcile(rid, RecordVerdict))
  {
    hide WorkerMove, PersistedAggregate;
    var t := AfterOffers(s, rid, rows, a, k);
    var receipt := VerdictReceipt(rows[k], RetryableNotApplied);
    var statuses := WithOpStatus(t.row, k, RetryableNotApplied);
    assert statuses == Statuses(Offers(rows, a, k + 1));
    OffersAggregate(rows, a, k + 1, statuses);
    assert t.row.ops[k := t.row.ops[k].(status := RetryableNotApplied, receipt := Some(receipt), reconciled := true)]
        == Offers(rows, a, k + 1);
    assert s.reconcilers[rid := Scanning(rows, k)][rid := Scanning(rows, k + 1)]
        == s.reconcilers[rid := Scanning(rows, k + 1)];
    assert t.reconcilers[rid] == Scanning(rows, k);
  }

  /** A reconciler offers everything that its snapshot shows as never reached. */
  lemma {:induction false} OfferUpTo(s: Sys, rid: nat, rows: seq<OpRow>, a: nat, k: nat) returns (steps: seq<Step>)
    requires Unreached(rows, a) && a <= k <= |rows| && s.row.leaseOwner == None && s.row.ops == rows
    requires rid in s.reconcilers && s.reconcilers[rid] == Scanning(rows, a)
    ensures Reaches(s, steps, AfterOffers(s, rid, rows, a, k))
  {
    hide Apply, Reaches, VerdictIsFresh;
    if k == a {
      steps := [];
      assert s.reconcilers[rid := Scanning(rows, a)] == s.reconcilers;
      assert Offers(rows, a, a) == rows;
      Nothing(s);
    } else {
      steps := OfferUpTo(s, rid, rows, a, k - 1);
      OfferOne(s, rid, rows, a, k - 1);
      var offered := AfterOffers(s, rid, rows, a, k - 1);
      OneMore(s, steps, offered, Reconcile(rid, RecordVerdict), AfterOffers(s, rid, rows, a, k));
      steps := steps + [Reconcile(rid, RecordVerdict)];
    }
  }

  function PutReader(s: Sys, rid: nat, r: Reconciler): Sys {
    s.(reconcilers := s.reconcilers[rid := r])
  }

  function Fenced(row: PlanRow): PlanRow {
    row.(status := if row.status == Executing then Unknown else row.status, leaseOwner := None, leaseExpires := None)
  }

  /** A reconciler fences the plan once the lease has run out, and reads the operations. */
  lemma FenceAndRead(s: Sys, rid: nat) returns (steps: seq<Step>)
    requires rid !in s.reconcilers && s.row.status in {Executing, Unknown, Partial} && !LeaseLive(s.row, s.clock)
    ensures Reaches(s, steps, PutReader(s.(row := Fenced(s.row)), rid, Scanning(s.row.ops, 0)))
  {
    var fenced := s.(row := Fenced(s.row));
    var a := PutReader(fenced, rid, Fencing(s.row.status));
    var b := PutReader(fenced, rid, Cleared);
    var c := PutReader(fenced, rid, Scanning(s.row.ops, 0));
    FenceSteps(s, rid);
    hide Reaches, Apply, PutReader;
    One(s, Reconcile(rid, Fence), a);
    One(a, Reconcile(rid, CheckStatus), b);
    One(b, Reconcile(rid, ReadSnapshot), c);
    Then(s, [Reconcile(rid, Fence)], a, [Reconcile(rid, CheckStatus)], b);
    Then(s, [Reconcile(rid, Fence)] + [Reconcile(rid, CheckStatus)], b, [Reconcile(rid, ReadSnapshot)], c);
    steps := [Reconcile(rid, Fence)] + [Reconcile(rid, CheckStatus)] + [Reconcile(rid, ReadSnapshot)];
  }

  lemma FenceSteps(s: Sys, rid: nat)
    requires rid !in s.reconcilers && s.row.status in {Executing, Unknown, Partial} && !LeaseLive(s.row, s.clock)
    ensures var fenced := s.(row := Fenced(s.row));
            var a, b := PutReader(fenced, rid, Fencing(s.row.status)), PutReader(fenced, rid, Cleared);
            && Apply(s, Reconcile(rid, Fence)) == Some(a)
            && Apply(a, Reconcile(rid, CheckStatus)) == Some(b)
            && Apply(b, Reconcile(rid, ReadSnapshot)) == Some(PutReader(fenced, rid, Scanning(s.row.ops, 0)))
  {
    hide WorkerMove;
    var m: map<nat, Reconciler> := s.reconcilers;
    assert m[rid := Fencing(s.row.status)][rid := Cleared] == m[rid := Cleared];
    assert m[rid := Cleared][rid := Scanning(s.row.ops, 0)] == m[rid := Scanning(s.row.ops, 0)];
  }

  lemma ReplayGuard(row: PlanRow)
    requires row.status in {RetryableNotApplied, Partial} && |row.ops| > 0
    requires forall i | 0 <= i < |row.ops| ::
               IsSuccess(row.ops[i].status) || (row.ops[i].status == RetryableNotApplied && row.ops[i].reconciled)
    requires row.ops[|row.ops| - 1].status == RetryableNotApplied
    ensures ResumeGuard(row)
  {
    assert row.ops[|row.ops| - 1] in row.ops;
  }
}
