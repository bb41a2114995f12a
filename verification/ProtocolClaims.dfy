/** Which claims of a resume call that is past its guard are safe: exactly the orderly ones. */
module ProtocolClaims {
  import opened Wrappers
  import opened WritePlans
  import opened PlanRows
  import opened WriteProtocol
  import opened ProtocolSafety
  import opened ProtocolCoherence
  import opened ProtocolOrder

  lemma Extend(start: Sys, steps: seq<Step>, s: Sys, step: Step, s': Sys)
    requires Run(start, steps) == Some(s) && Apply(s, step) == Some(s')
    ensures Run(start, steps + [step]) == Some(s')
  {
    assert (steps + [step])[..|steps|] == steps;
  }

  /** No call claims the plan past its guard. */
  predicate ClaimFree(steps: seq<Step>) {
    forall step | step in steps :: !(step.Work? && step.action.ResumeClaim?)
  }

  lemma {:induction false} ClaimFreeIsOrderly(s: Sys, steps: seq<Step>)
    requires ClaimFree(steps)
    ensures ClaimsOrderly(s, steps)
  {
    if steps != [] {
      assert steps[|steps| - 1] in steps;
      ClaimFreeIsOrderly(s, steps[..|steps| - 1]);
    }
  }

  /** The loop of a call passes what it may not dispatch. */
  lemma {:induction false} SkipUpTo(
    start: Sys, s: Sys, owner: Token, claimable: PlanStatus, snapshot: seq<PlanStatus>, to: nat, before: seq<Step>)
    returns (steps: seq<Step>, t: Sys)
    requires Run(start, before) == Some(s) && ClaimFree(before)
    requires owner in s.workers && s.workers[owner] == Looping(claimable, snapshot, 0) && to <= |snapshot|
    requires forall i | 0 <= i < to :: snapshot[i] != claimable
    ensures Run(start, steps) == Some(t) && t == s.(workers := s.workers[owner := Looping(claimable, snapshot, to)])
    ensures ClaimFree(steps)
  {
    if to == 0 {
      steps, t := before, s;
      assert s.workers[owner := Looping(claimable, snapshot, 0)] == s.workers;
    } else {
      var v: Sys;
      steps, v := SkipUpTo(start, s, owner, claimable, snapshot, to - 1, before);
      t := v.(workers := v.workers[owner := Looping(claimable, snapshot, to)]);
      SkipOne(v, owner, claimable, snapshot, to - 1, t);
      Extend(start, steps, v, Work(owner, SkipOperation), t);
      steps := steps + [Work(owner, SkipOperation)];
      assert s.workers[owner := Looping(claimable, snapshot, to - 1)][owner := Looping(claimable, snapshot, to)]
          == s.workers[owner := Looping(claimable, snapshot, to)];
    }
  }

  lemma SkipOne(v: Sys, owner: Token, claimable: PlanStatus, snapshot: seq<PlanStatus>, i: nat, t: Sys)
    requires owner in v.workers && v.workers[owner] == Looping(claimable, snapshot, i) && i < |snapshot|
    requires snapshot[i] != claimable && t == v.(workers := v.workers[owner := Looping(claimable, snapshot, i + 1)])
    ensures Apply(v, Work(owner, SkipOperation)) == Some(t)
  {
    hide ReconcilerMove;
    assert WorkerMove(v.row, v.clock, owner, WorkerOf(v, owner), SkipOperation)
        == Some((v.row, Looping(claimable, snapshot, i + 1)));
  }

  lemma {:induction false} FirstReplay(ops: seq<OpRow>, k: nat) returns (j: nat)
    requires k < |ops| && ops[k].status == RetryableNotApplied
    ensures j <= k && ops[j].status == RetryableNotApplied
    ensures forall i | 0 <= i < j :: ops[i].status != RetryableNotApplied
    decreases k
  {
    if i :| 0 <= i < k && ops[i].status == RetryableNotApplied { j := FirstReplay(ops, i); } else { j := k; }
  }

  /** Without an orderly row, the first operation on offer stands behind an unfinished one. */
  lemma DisorderlyRow(row: PlanRow) returns (f: nat, j: nat)
    requires RowInv(row) && Tried(row.ops) && InOrder(row.ops) && NoneIssued(row.ops) && !OrderlyClaim(row)
    requires row.status in {RetryableNotApplied, Partial}
    ensures f < j < |row.ops| && !IsSuccess(row.ops[f].status) && row.ops[j].status == RetryableNotApplied
    ensures forall i | 0 <= i < j :: row.ops[i].status != RetryableNotApplied
  {
    hide RowInv, Tried, NoneIssued, ResumeGuard;
    f := Frontier(row.ops);
    var k :| f < k < |row.ops| && row.ops[k].status == RetryableNotApplied;
    var x := UnfinishedWork(row);
    FrontierIsFirst(row.ops, x);
    j := FirstReplay(row.ops, k);
  }

  lemma UnfinishedWork(row: PlanRow) returns (x: nat)
    requires RowInv(row) && Tried(row.ops) && NoneIssued(row.ops) && !ResumeGuard(row) && SomeReplay(row.ops)
    requires row.status in {RetryableNotApplied, Partial}
    ensures x < |row.ops| && !IsSuccess(row.ops[x].status) && !IsOpen(row.ops[x].status) && row.ops[x].attempt > 0
  {
    var r :| 0 <= r < |row.ops| && row.ops[r].status == RetryableNotApplied;
    assert row.ops[r] in row.ops;
    var op :| && op in row.ops
              && !(op.status in {Applied, AlreadyApplied, RetryableNotApplied}
                   && (op.status == RetryableNotApplied ==> op.reconciled));
    x :| 0 <= x < |row.ops| && row.ops[x] == op;
  }

  /** From a disorderly row, the claiming call goes on to dispatch behind unfinished work. */
  lemma DisorderlyClaimBreaksOrder(s: Sys, owner: Token, now: int, seconds: int, s': Sys)
    returns (steps: seq<Step>, t: Sys)
    requires Ordered(s) && Apply(s, Work(owner, ResumeClaim(now, seconds))) == Some(s')
    requires !OrderlyClaim(s.row) && now + seconds > s.clock
    ensures ClaimFree(steps) && Run(s', steps) == Some(t) && !InOrder(t.row.ops)
  {
    var f, j := DisorderlyClaim(s, owner, now, seconds, s');
    var ops := s'.row.ops;
    var snapshot := Statuses(ops);
    var a := s'.(workers := s'.workers[owner := Looping(RetryableNotApplied, snapshot, 0)]);
    ReadAfterClaim(s', owner, a);
    assert Run(s', []) == Some(s');
    Extend(s', [], s', Work(owner, ReadRecord), a);
    var skipped, b := SkipUpTo(s', a, owner, RetryableNotApplied, snapshot, j, [] + [Work(owner, ReadRecord)]);
    t := DispatchAt(b, owner, snapshot, j);
    Extend(s', skipped, b, Work(owner, ClaimOp(0, 1)), t);
    steps := skipped + [Work(owner, ClaimOp(0, 1))];
    assert t.row.ops[f] == ops[f] && t.row.ops[j].attempt > 0;
  }

  /** What the claim leaves behind. */
  lemma DisorderlyClaim(s: Sys, owner: Token, now: int, seconds: int, s': Sys) returns (f: nat, j: nat)
    requires Ordered(s) && Apply(s, Work(owner, ResumeClaim(now, seconds))) == Some(s')
    requires !OrderlyClaim(s.row) && now + seconds > s.clock
    ensures s'.row.ops == s.row.ops && owner in s'.workers && s'.workers[owner] == Claimed(RetryableNotApplied)
    ensures s'.row.leaseOwner == Some(owner) && LeaseLive(s'.row, s'.clock)
    ensures f < j < |s'.row.ops| && !IsSuccess(s'.row.ops[f].status) && s'.row.ops[j].status == RetryableNotApplied
    ensures forall i | 0 <= i < j :: s'.row.ops[i].status != RetryableNotApplied
  {
    hide InOrder, OrderlyClaim, Tried, OnlyFirst, FinalMeansStuck, HolderIsOrderly, HolderFits, ReconcilerFits,
         ReconcilerMove, NoHiddenPartialWrite;
    ClaimableStatus(s, owner, now, seconds);
    f, j := DisorderlyRow(s.row);
  }

  lemma ClaimableStatus(s: Sys, owner: Token, now: int, seconds: int)
    requires Ordered(s) && Apply(s, Work(owner, ResumeClaim(now, seconds))).Some?
    ensures owner in s.workers && s.workers[owner].GuardPassed? && NoneIssued(s.row.ops)
    ensures s.row.status in {RetryableNotApplied, Partial}
  {
    hide InOrder, Tried, OnlyFirst, FinalMeansStuck, HolderIsOrderly, HolderFits, ReconcilerFits, ReconcilerMove;
    assert WorkerFits(s.workers[owner], s.row, Holder(s));
  }

  lemma ReadAfterClaim(s: Sys, owner: Token, a: Sys)
    requires owner in s.workers && s.workers[owner] == Claimed(RetryableNotApplied)
    requires a == s.(workers := s.workers[owner := Looping(RetryableNotApplied, Statuses(s.row.ops), 0)])
    ensures Apply(s, Work(owner, ReadRecord)) == Some(a)
  {
    hide ReconcilerMove;
    assert WorkerMove(s.row, s.clock, owner, WorkerOf(s, owner), ReadRecord)
        == Some((s.row, Looping(RetryableNotApplied, Statuses(s.row.ops), 0)));
  }

  lemma DispatchAt(b: Sys, owner: Token, snapshot: seq<PlanStatus>, j: nat) returns (t: Sys)
    requires owner in b.workers && b.workers[owner] == Looping(RetryableNotApplied, snapshot, j)
    requires j < |snapshot| && snapshot[j] == RetryableNotApplied && j < |b.row.ops|
             && b.row.ops[j].status == RetryableNotApplied
    requires b.row.leaseOwner == Some(owner) && LeaseLive(b.row, b.clock)
    ensures Apply(b, Work(owner, ClaimOp(0, 1))) == Some(t)
    ensures |t.row.ops| == |b.row.ops| && t.row.ops[j].attempt == b.row.ops[j].attempt + 1
    ensures forall i | 0 <= i < |b.row.ops| && i != j :: t.row.ops[i] == b.row.ops[i]
  {
    hide ReconcilerMove;
    var move := WorkerMove(b.row, b.clock, owner, WorkerOf(b, owner), ClaimOp(0, 1));
    assert move.Some?;
    t := Apply(b, Work(owner, ClaimOp(0, 1))).value;
  }

  /** A resume call that is past its guard may claim the plan exactly when the claim is orderly, or comes
      too late to be worth a lease: then, and only then, no continuation whose later claims are orderly
      dispatches behind unfinished work. */
  lemma ResumeClaimIsSafeExactlyWhenOrderly(s: Sys, owner: Token, now: int, seconds: int, s': Sys)
    requires Ordered(s) && Apply(s, Work(owner, ResumeClaim(now, seconds))) == Some(s')
    ensures OrderlyClaim(s.row) || now + seconds <= s.clock
            <==> forall steps, t | ClaimsOrderly(s', steps) && Run(s', steps) == Some(t) :: InOrder(t.row.ops)
  {
    hide Apply, Coherent, OrderlyClaim, ClaimsOrderly, Run, InOrder, CalledIsClaimed, HolderIsOrderly;
    if OrderlyClaim(s.row) || now + seconds <= s.clock {
      StepKeepsOrdered(s, Work(owner, ResumeClaim(now, seconds)), s');
      forall steps, t | ClaimsOrderly(s', steps) && Run(s', steps) == Some(t) ensures InOrder(t.row.ops) {
        RunKeepsOrdered(s', steps, t);
      }
    } else {
      var steps, t := DisorderlyClaimBreaksOrder(s, owner, now, seconds, s');
      ClaimFreeIsOrderly(s', steps);
    }
  }

  /** For a plan of at most two operations every such claim is orderly. */
  lemma ShortPlansAreOrderly(s: Sys, owner: Token, now: int, seconds: int)
    requires Ordered(s) && Apply(s, Work(owner, ResumeClaim(now, seconds))).Some? && |s.row.ops| <= 2
    ensures OrderlyClaim(s.row)
  {
    ClaimableStatus(s, owner, now, seconds);
    DoneMeansSucceeded(s.row);
    if !OrderlyClaim(s.row) {
      var f, j := DisorderlyRow(s.row);
      hide Apply, OrderlyClaim, HolderIsOrderly, HolderFits, ReconcilerFits, WorkerFits, Tried, OnlyFirst;
      assert false;
    }
  }

  lemma {:induction false} ShortRunsAreOrderly(start: Sys, steps: seq<Step>)
    requires Init(start) && |start.row.ops| <= 2
    ensures ClaimsOrderly(start, steps)
  {
    if steps != [] {
      var init, last := steps[..|steps| - 1], steps[|steps| - 1];
      ShortRunsAreOrderly(start, init);
      if Run(start, steps).Some? && last.Work? && last.action.ResumeClaim? {
        hide Apply, Init, OrderlyClaim;
        var s := Run(start, init).value;
        InitIsOrdered(start);
        RunKeepsOrdered(start, init, s);
        InitIsSafe(start);
        RunKeepsSafe(start, init, s);
        ShortPlansAreOrderly(s, last.owner, last.action.now, last.action.seconds);
      }
    }
  }

  /** So plans of at most two operations are executed in order on every run. */
  lemma ShortPlansRunInOrder(start: Sys, steps: seq<Step>, s: Sys)
    requires Init(start) && |start.row.ops| <= 2 && Run(start, steps) == Some(s)
    ensures |s.calls| == |s.row.ops|
    ensures forall i | Frontier(s.row.ops) < i < |s.row.ops| :: s.row.ops[i].attempt == 0 && s.calls[i] == 0
  {
    ShortRunsAreOrderly(start, steps);
    InOrderExecution(start, steps, s);
  }
}
