/** The durable plan store (plan_store.py): one method for each transaction. `GetPlan` and `GetPlanRecord`
    are transactions of their own; of the plan that the claiming and transition methods return at the end,
    their callers use only what never changes. */
module PlanStores {
  import opened Wrappers
  import opened WritePlans
  import opened PlanRows

  class SQLitePlanStore {
    var plans: map<string, PlanRow>

    constructor ()
      ensures plans == map[]
    {
      plans := map[];
    }

    /** Primary keys: the plan id, and every operation id over all plans. */
    ghost predicate Insertable(plan: WritePlan)
      reads this
    {
      && plan.header.planId !in plans
      && (forall p, i, j | p in plans && 0 <= i < |plans[p].ops| && 0 <= j < |plan.operations| ::
            plans[p].ops[i].payload.operationId != plan.operations[j].operationId)
      && (forall i, j | 0 <= i < j < |plan.operations| ::
            plan.operations[i].operationId != plan.operations[j].operationId)
    }

    method SavePlan(plan: WritePlan) returns (r: Result<(), StoreError>)
      modifies this
      ensures r.Success? <==> old(Insertable(plan))
      ensures plans == if r.Success? then old(plans)[plan.header.planId := NewRow(plan)] else old(plans)
    {
      if plan.header.planId in plans { return Failure(IntegrityError); }
      var rows: seq<OpRow> := [];
      for n := 0 to |plan.operations|
        invariant plans == old(plans)
        invariant |rows| == n && forall k | 0 <= k < n :: rows[k] == NewOpRow(plan.operations[k])
        invariant forall p, i, j | p in plans && 0 <= i < |plans[p].ops| && 0 <= j < n ::
          plans[p].ops[i].payload.operationId != plan.operations[j].operationId
        invariant forall i, j | 0 <= i < j < n ::
          plan.operations[i].operationId != plan.operations[j].operationId
      {
        var id := plan.operations[n].operationId;
        if exists p, i | p in plans && 0 <= i < |plans[p].ops| :: plans[p].ops[i].payload.operationId == id {
          return Failure(IntegrityError);
        }
        if exists k | 0 <= k < n :: rows[k].payload.operationId == id {
          return Failure(IntegrityError);
        }
        rows := rows + [NewOpRow(plan.operations[n])];
      }
      assert rows == NewRow(plan).ops;
      plans := plans[plan.header.planId := PlanRow(plan.header, plan.status, None, None, None, rows)];
      r := Success(());
    }

    method GetPlan(planId: string) returns (r: Option<WritePlan>)
      ensures r == if planId in plans then Rehydrate(plans[planId]) else None
    {
      if planId !in plans { return None; }
      r := Rehydrate(plans[planId]);
    }

    method GetPlanRecord(planId: string) returns (r: Option<PlanRow>)
      ensures r == if planId in plans then Some(plans[planId]) else None
    {
      r := if planId in plans then Some(plans[planId]) else None;
    }

    /** Every transaction commits one row or rolls back and changes nothing. */
    twostate predicate Commits(planId: string, outcome: Result<PlanRow, StoreError>)
      reads this
    {
      plans == if outcome.Success? then old(plans)[planId := outcome.value] else old(plans)
    }

    method TransitionPlan(planId: string, expected: PlanStatus, target: PlanStatus, now: int)
      returns (r: Result<(), StoreError>)
      modifies this
      ensures planId !in old(plans) ==> r.Failure? && plans == old(plans)
      ensures planId in old(plans) ==>
                var outcome := PlanRows.TransitionPlan(old(plans)[planId], expected, target, now);
                && Commits(planId, outcome)
                && (r.Success? <==> outcome.Success? && old(plans)[planId].header.toolName != "legacy")
    {
      if !CanTransition(expected, target) { return Failure(IllegalTransition); }
      if planId !in plans || plans[planId].status != expected { return Failure(PlanStateMismatch); }
      var row := plans[planId].(status := target);
      if target == Executing {
        row := row.(confirmedAt := Coalesce(row.confirmedAt, now));
      }
      plans := plans[planId := row];
      var plan := GetPlan(planId);
      if plan.None? { return Failure(PlanNotFound); }
      r := Success(());
    }

    method ClaimPlan(planId: string, owner: Token, now: int, seconds: int, resume: bool)
      returns (r: Result<bool, StoreError>)
      modifies this
      ensures seconds <= 0 || planId !in old(plans) ==> r.Failure? && plans == old(plans)
      ensures seconds > 0 && planId in old(plans) ==>
                var (row, claimed) := PlanRows.ClaimPlan(old(plans)[planId], owner, now, seconds, resume);
                && plans == old(plans)[planId := row]
                && (r.Success? <==> row.header.toolName != "legacy")
                && (r.Success? ==> r.value == claimed)
    {
      if seconds <= 0 { return Failure(ValueError); }
      if planId !in plans { return Failure(PlanNotFound); }
      var row := plans[planId];
      var current := row.status;
      var claimable := {Issued};
      if resume {
        claimable := claimable + {RetryableNotApplied, Partial};
      }
      var leaseAvailable := row.leaseExpires.None? || row.leaseExpires.value <= now;
      var claimed := false;
      if current in claimable && leaseAvailable {
        var target := if current != Partial then Executing else current;
        row := row.(status := target, confirmedAt := Coalesce(row.confirmedAt, now),
                    leaseOwner := Some(owner), leaseExpires := Some(now + seconds));
        plans := plans[planId := row];
        claimed := true;
      }
      var plan := GetPlan(planId);
      if plan.None? { return Failure(PlanNotFound); }
      r := Success(claimed);
    }

    method ClaimOperation(planId: string, i: nat, owner: Option<Token>, token: Token, now: int, seconds: int)
      returns (r: Result<nat, StoreError>)
      modifies this
      ensures seconds <= 0 || planId !in old(plans) ==> r.Failure? && plans == old(plans)
      ensures seconds > 0 && planId in old(plans) ==>
                var outcome := PlanRows.ClaimOperation(old(plans)[planId], i, owner, token, now, seconds);
                && Commits(planId, outcome)
                && (r.Success? <==> outcome.Success?)
                && (r.Success? ==> r.value == plans[planId].ops[i].attempt)
    {
      if seconds <= 0 { return Failure(ValueError); }
      if planId !in plans { return Failure(LeaseAbsentOrExpired); }
      var row := plans[planId];
      if row.leaseExpires.None? || row.leaseExpires.value <= now { return Failure(LeaseAbsentOrExpired); }
      if row.leaseOwner.None? { return Failure(OwnerMismatch); }
      var effectiveOwner := if owner.Some? then owner.value else row.leaseOwner.value;
      if row.leaseOwner.value != effectiveOwner { return Failure(OwnerMismatch); }
      if i >= |row.ops| || row.ops[i].status !in {Issued, RetryableNotApplied} { return Failure(NotClaimable); }
      var attempt := row.ops[i].attempt + 1;
      var op := row.ops[i].(status := Executing, attempt := attempt, attemptToken := Some(token), reconciled := false);
      row := row.(ops := row.ops[i := op]);
      row := row.(leaseExpires := Some(now + seconds));
      plans := plans[planId := row];
      r := Success(attempt);
    }

    method RecordReceipt(
      planId: string, i: nat, receipt: Receipt, owner: Option<Token>, token: Option<Token>, now: int)
      returns (r: Result<(), StoreError>)
      modifies this
      ensures planId !in old(plans) ==> r.Failure? && plans == old(plans)
      ensures planId in old(plans) ==>
                var outcome := PlanRows.RecordReceipt(old(plans)[planId], i, receipt, owner, token, now);
                Commits(planId, outcome) && (r.Success? <==> outcome.Success?)
    {
      if planId !in plans { return Failure(PlanNotFound); }
      var row := plans[planId];
      if i >= |row.ops| { return Failure(PlanNotFound); }
      var op := row.ops[i];
      var effectiveOwner := if owner.Some? then owner else row.leaseOwner;
      var effectiveToken :=
        if token.Some? then token else if receipt.attemptToken.Some? then receipt.attemptToken else op.attemptToken;
      if op.status != Executing || op.attempt != receipt.attempt || effectiveToken.None?
         || op.attemptToken != effectiveToken || row.leaseOwner != effectiveOwner
         || row.leaseExpires.None? || row.leaseExpires.value <= now {
        return Failure(StaleReceipt);
      }
      var updated := row.ops[i := op.(status := receipt.status, receipt := Some(receipt))];
      var aggregate := AggregatePersistedStatuses(Statuses(updated));
      assert Statuses(updated) == WithOpStatus(row, i, receipt.status);
      if row.status != aggregate && !CanTransition(row.status, aggregate) {
        return Failure(IllegalTransition);
      }
      var keepLease := receipt.status in {Applied, AlreadyApplied} && aggregate in {Executing, Partial};
      row := row.(ops := updated, status := aggregate);
      if !keepLease {
        row := row.(leaseOwner := None, leaseExpires := None);
      }
      plans := plans[planId := row];
      r := Success(());
    }

    /** The transaction of `begin_reconcile`; the plan that it returns is read afterwards, by `GetPlan`. */
    method BeginReconcile(planId: string, now: int) returns (r: Result<(), StoreError>)
      modifies this
      ensures planId !in old(plans) ==> r.Failure? && plans == old(plans)
      ensures planId in old(plans) ==>
                var outcome := PlanRows.BeginReconcile(old(plans)[planId], now);
                Commits(planId, outcome) && (r.Success? <==> outcome.Success?)
    {
      if planId !in plans { return Failure(PlanNotFound); }
      var row := plans[planId];
      if row.leaseExpires.Some? && row.leaseExpires.value > now { return Failure(LeaseStillActive); }
      if row.status == Executing {
        row := row.(status := Unknown, leaseOwner := None, leaseExpires := None);
      } else if row.status in {Unknown, LegacyUnknown, Partial} {
        row := row.(leaseOwner := None, leaseExpires := None);
      }
      plans := plans[planId := row];
      r := Success(());
    }

    method RecordReconciliationReceipt(planId: string, i: nat, receipt: Receipt)
      returns (r: Result<(), StoreError>)
      modifies this
      ensures planId !in old(plans) ==> r.Failure? && plans == old(plans)
      ensures planId in old(plans) ==>
                var outcome := PlanRows.RecordReconciliation(old(plans)[planId], i, receipt);
                Commits(planId, outcome) && (r.Success? <==> outcome.Success?)
    {
      if planId !in plans || plans[planId].leaseOwner.Some? { return Failure(NotFenced); }
      var row := plans[planId];
      if i >= |row.ops| || row.ops[i].status !in {Issued, Executing, Unknown, LegacyUnknown} {
        return Failure(NotReconcilable);
      }
      var updated := row.ops[i := row.ops[i].(status := receipt.status, receipt := Some(receipt), reconciled := true)];
      var aggregate := AggregatePersistedStatuses(Statuses(updated));
      assert Statuses(updated) == WithOpStatus(row, i, receipt.status);
      plans := plans[planId := row.(ops := updated, status := aggregate)];
      r := Success(());
    }
  }
}
