/** What each SQL transaction of plan_store.py does to the rows of one plan. */
module PlanRows {
  import opened Wrappers
  import opened WritePlans

  /** Owner and attempt tokens are uuid4 values: only their identity matters. */
  type Token = nat

  datatype Receipt = Receipt(status: ApplyStatus, attempt: nat, attemptToken: Option<Token>)

  datatype OpRow = OpRow(
    payload: OperationPlan, status: PlanStatus, attempt: nat,
    attemptToken: Option<Token>, reconciled: bool, receipt: Option<Receipt>)

  /** One row of write_plans with its write_operations rows in ordinal order. */
  datatype PlanRow = PlanRow(
    header: PlanHeader, status: PlanStatus, confirmedAt: Option<int>,
    leaseOwner: Option<Token>, leaseExpires: Option<int>, ops: seq<OpRow>)

  datatype StoreError =
    | ValueError | PlanNotFound | IntegrityError | PlanStateMismatch | IllegalTransition
    | LeaseAbsentOrExpired | OwnerMismatch | NotClaimable | StaleReceipt
    | LeaseStillActive | NotFenced | NotReconcilable

  function Statuses(ops: seq<OpRow>): (r: seq<PlanStatus>)
    ensures |r| == |ops| && forall i | 0 <= i < |ops| :: r[i] == ops[i].status
  {
    seq(|ops|, i requires 0 <= i < |ops| => ops[i].status)
  }

  predicate LeaseLive(row: PlanRow, now: int) {
    row.leaseExpires.Some? && row.leaseExpires.value > now
  }

  function Coalesce(first: Option<int>, second: int): Option<int> {
    if first.Some? then first else Some(second)
  }

  function TransitionPlan(row: PlanRow, expected: PlanStatus, target: PlanStatus, now: int)
    : Result<PlanRow, StoreError>
  {
    if !CanTransition(expected, target) then Failure(IllegalTransition)
    else if row.status != expected then Failure(PlanStateMismatch)
    else Success(row.(status := target,
                      confirmedAt := if target == Executing then Coalesce(row.confirmedAt, now) else row.confirmedAt))
  }

  predicate Claimable(status: PlanStatus, resume: bool) {
    status == Issued || (resume && (status == RetryableNotApplied || status == Partial))
  }

  /** The second component says whether this caller won the lease. */
  function ClaimPlan(row: PlanRow, owner: Token, now: int, seconds: int, resume: bool): (PlanRow, bool) {
    if Claimable(row.status, resume) && !LeaseLive(row, now) then
      (row.(status := if row.status == Partial then Partial else Executing,
            confirmedAt := Coalesce(row.confirmedAt, now),
            leaseOwner := Some(owner), leaseExpires := Some(now + seconds)), true)
    else (row, false)
  }

  /** `owner` is None when the caller passes no owner token. */
  function ClaimOperation(row: PlanRow, i: nat, owner: Option<Token>, token: Token, now: int, seconds: int)
    : Result<PlanRow, StoreError>
  {
    if !LeaseLive(row, now) then Failure(LeaseAbsentOrExpired)
    else if row.leaseOwner.None? || (owner.Some? && owner != row.leaseOwner) then Failure(OwnerMismatch)
    else if i >= |row.ops| || (row.ops[i].status != Issued && row.ops[i].status != RetryableNotApplied) then
      Failure(NotClaimable)
    else
      var op := row.ops[i];
      Success(row.(
        ops := row.ops[i := op.(status := Executing, attempt := op.attempt + 1,
                                attemptToken := Some(token), reconciled := false)],
        leaseExpires := Some(now + seconds)))
  }

  function FirstSome(a: Option<Token>, b: Option<Token>, c: Option<Token>): Option<Token> {
    if a.Some? then a else if b.Some? then b else c
  }

  /** The receipt names the attempt that the row is executing, under its live lease. */
  predicate ReceiptFenced(row: PlanRow, i: nat, receipt: Receipt, owner: Option<Token>, token: Option<Token>, now: int)
    requires i < |row.ops|
  {
    var op := row.ops[i];
    && op.status == Executing
    && op.attempt == receipt.attempt
    && op.attemptToken.Some?
    && op.attemptToken == FirstSome(token, receipt.attemptToken, op.attemptToken)
    && (owner.None? || owner == row.leaseOwner)
    && LeaseLive(row, now)
  }

  function WithOpStatus(row: PlanRow, i: nat, status: PlanStatus): seq<PlanStatus>
    requires i < |row.ops|
  {
    Statuses(row.ops)[i := status]
  }

  function RecordReceipt(
    row: PlanRow, i: nat, receipt: Receipt, owner: Option<Token>, token: Option<Token>, now: int)
    : Result<PlanRow, StoreError>
  {
    if i >= |row.ops| || !ReceiptFenced(row, i, receipt, owner, token, now) then Failure(StaleReceipt)
    else
      var aggregate := PersistedAggregate(WithOpStatus(row, i, receipt.status));
      if row.status != aggregate && !CanTransition(row.status, aggregate) then Failure(IllegalTransition)
      else
        var keepLease := IsSuccess(receipt.status) && (aggregate == Executing || aggregate == Partial);
        Success(row.(
          ops := row.ops[i := row.ops[i].(status := receipt.status, receipt := Some(receipt))],
          status := aggregate,
          leaseOwner := if keepLease then row.leaseOwner else None,
          leaseExpires := if keepLease then row.leaseExpires else None))
  }

  function BeginReconcile(row: PlanRow, now: int): Result<PlanRow, StoreError> {
    if LeaseLive(row, now) then Failure(LeaseStillActive)
    else if row.status == Executing then
      Success(row.(status := Unknown, leaseOwner := None, leaseExpires := None))
    else if row.status in {Unknown, LegacyUnknown, Partial} then
      Success(row.(leaseOwner := None, leaseExpires := None))
    else Success(row)
  }

  predicate Reconcilable(status: PlanStatus) {
    status == Issued || status == Executing || status == Unknown || status == LegacyUnknown
  }

  /** The transition table is not consulted here. */
  function RecordReconciliation(row: PlanRow, i: nat, receipt: Receipt): Result<PlanRow, StoreError> {
    if row.leaseOwner.Some? then Failure(NotFenced)
    else if i >= |row.ops| || !Reconcilable(row.ops[i].status) then Failure(NotReconcilable)
    else
      Success(row.(
        ops := row.ops[i := row.ops[i].(status := receipt.status, receipt := Some(receipt), reconciled := true)],
        status := PersistedAggregate(WithOpStatus(row, i, receipt.status))))
  }

  /** The guard of `resume`, over a plan status and operation rows that may have been read apart. */
  predicate GuardOver(status: PlanStatus, ops: seq<OpRow>) {
    && status in {RetryableNotApplied, Partial}
    && (exists op | op in ops :: op.status == RetryableNotApplied)
    && (forall op | op in ops :: op.status in {Applied, AlreadyApplied, RetryableNotApplied})
    && !(exists op | op in ops :: !op.reconciled && op.status == RetryableNotApplied)
  }

  /** The guard holds of the row as it is. */
  predicate ResumeGuard(row: PlanRow) {
    GuardOver(row.status, row.ops)
  }

  // ---- Saving and loading -----------------------------------------------

  function NewOpRow(o: OperationPlan): OpRow {
    OpRow(OperationToDict(o), Issued, 0, None, false, None)
  }

  function NewRow(plan: WritePlan): PlanRow {
    PlanRow(plan.header, plan.status, None, None, None,
            seq(|plan.operations|, i requires 0 <= i < |plan.operations| => NewOpRow(plan.operations[i])))
  }

  /** `get_plan`: a legacy row has no canonical plan. */
  function Rehydrate(row: PlanRow): Option<WritePlan> {
    if row.header.toolName == "legacy" then None
    else Some(WritePlan(row.header,
                        seq(|row.ops|, i requires 0 <= i < |row.ops| => NewOperation(row.ops[i].payload)),
                        row.status))
  }

  lemma PlanSurvivesPersistence(plan: WritePlan)
    requires plan.header.toolName != "legacy"
    requires forall i | 0 <= i < |plan.operations| :: FromJson(plan.operations[i])
    ensures Rehydrate(NewRow(plan)) == Some(plan)
  {
    forall i | 0 <= i < |plan.operations|
      ensures NewOperation(OperationToDict(plan.operations[i])) == plan.operations[i]
    {
      OperationSurvivesPersistence(plan.operations[i]);
    }
    assert Rehydrate(NewRow(plan)).value.operations == plan.operations;
  }
}
