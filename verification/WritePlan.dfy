/** Statuses, transition table, aggregation and immutable plans (write_plan.py). */
module WritePlans {
  import opened Wrappers

  datatype PlanStatus =
    | Issued | Executing | Applied | AlreadyApplied | Rejected | Conflict
    | Partial | Unknown | LegacyUnknown | RetryableNotApplied | Expired

  /** The eight values that are also evidence about one operation. */
  predicate IsApplyStatus(s: PlanStatus) {
    s != Issued && s != Executing && s != Expired
  }

  type ApplyStatus = s: PlanStatus | IsApplyStatus(s) witness Applied

  predicate IsSuccess(s: PlanStatus) {
    s == Applied || s == AlreadyApplied
  }

  function AllowedTransitions(current: PlanStatus): set<PlanStatus> {
    match current
    case Issued => {Executing, Expired}
    case Executing => {Applied, AlreadyApplied, Rejected, Conflict, Partial, Unknown}
    case Unknown | LegacyUnknown => {Applied, Conflict, RetryableNotApplied}
    case RetryableNotApplied => {Executing}
    case Partial => {Partial, Applied, Unknown}
    case Applied | AlreadyApplied | Rejected | Conflict | Expired => {}
  }

  predicate CanTransition(current: PlanStatus, target: PlanStatus) {
    target in AllowedTransitions(current)
  }

  predicate IsFinal(s: PlanStatus) {
    s == Applied || s == AlreadyApplied || s == Rejected || s == Conflict || s == Expired
  }

  // ---- Aggregation ------------------------------------------------------

  function AggregatePlanStatus(statuses: seq<PlanStatus>): PlanStatus {
    if statuses == [] then Issued
    else if forall s | s in statuses :: IsSuccess(s) then
      if forall s | s in statuses :: s == AlreadyApplied then AlreadyApplied else Applied
    else if exists s | s in statuses :: IsSuccess(s) then Partial
    else if Partial in statuses then Partial
    else if Unknown in statuses then Unknown
    else if Conflict in statuses then Conflict
    else if RetryableNotApplied in statuses then RetryableNotApplied
    else Rejected
  }

  /** The aggregate over persisted rows, some of which may not carry evidence yet. */
  function PersistedAggregate(statuses: seq<PlanStatus>): PlanStatus {
    if forall s | s in statuses :: IsApplyStatus(s) then AggregatePlanStatus(statuses)
    else if exists s | s in statuses :: IsSuccess(s) then Partial
    else if Unknown in statuses then Unknown
    else if Conflict in statuses then Conflict
    else if RetryableNotApplied in statuses then RetryableNotApplied
    else if (exists s | s in statuses :: IsApplyStatus(s))
         && (forall s | s in statuses :: IsApplyStatus(s) ==> s == Rejected) then Rejected
    else Executing
  }

  /** `_aggregate_persisted_statuses`: one pass that separates evidence from pending rows. */
  method AggregatePersistedStatuses(statuses: seq<PlanStatus>) returns (aggregate: PlanStatus)
    ensures aggregate == PersistedAggregate(statuses)
  {
    var completed: seq<PlanStatus> := [];
    var pending := false;
    for i := 0 to |statuses|
      invariant forall s :: s in completed <==> s in statuses[..i] && IsApplyStatus(s)
      invariant pending <==> exists s :: s in statuses[..i] && !IsApplyStatus(s)
      invariant !pending ==> completed == statuses[..i]
    {
      assert statuses[..i + 1] == statuses[..i] + [statuses[i]];
      if IsApplyStatus(statuses[i]) {
        completed := completed + [statuses[i]];
      } else {
        pending := true;
      }
    }
    assert statuses[..|statuses|] == statuses;
    if pending {
      if exists s | s in completed :: IsSuccess(s) { return Partial; }
      if Unknown in completed { return Unknown; }
      if Conflict in completed { return Conflict; }
      if RetryableNotApplied in completed { return RetryableNotApplied; }
      if completed != [] && forall s | s in completed :: s == Rejected {
        assert completed[0] in completed;
        return Rejected;
      }
      return Executing;
    }
    aggregate := AggregatePlanStatus(completed);
  }

  /** No aggregate hides a success: what each group of aggregate values says about the operations. It is
      PARTIAL without a success only if an operation itself is. */
  lemma AggregateHidesNoSuccess(statuses: seq<PlanStatus>)
    ensures var a := PersistedAggregate(statuses);
            && (IsSuccess(a) <==> statuses != [] && forall s :: s in statuses ==> IsSuccess(s))
            && (a == Partial
                <==> if exists s :: s in statuses && IsSuccess(s) then exists s :: s in statuses && !IsSuccess(s)
                     else Partial in statuses && forall s :: s in statuses ==> IsApplyStatus(s))
            && (a == Issued <==> statuses == []) && a != Expired
  {
    if statuses != [] { assert statuses[0] in statuses; }
  }

  // ---- Operation states: freezing and thawing ---------------------------

  /** The Python values an operation state can hold. Numbers are left abstract. */
  datatype PyValue =
    | PyNone
    | PyBool(b: bool)
    | PyNumber(n: int)
    | PyStr(s: string)
    | PyList(items: seq<PyValue>)
    | PyTuple(elements: seq<PyValue>)
    | PyDict(entries: map<string, PyValue>)
    | PyMappingProxy(frozen: map<string, PyValue>)

  function Freeze(v: PyValue): PyValue {
    match v
    case PyDict(m) => PyMappingProxy(map k | k in m :: Freeze(m[k]))
    case PyMappingProxy(m) => PyMappingProxy(map k | k in m :: Freeze(m[k]))
    case PyList(xs) => PyTuple(seq(|xs|, i requires 0 <= i < |xs| => Freeze(xs[i])))
    case PyTuple(xs) => PyTuple(seq(|xs|, i requires 0 <= i < |xs| => Freeze(xs[i])))
    case _ => v
  }

  /** A list is returned as it is: freezing leaves none behind. */
  function Thaw(v: PyValue): PyValue {
    match v
    case PyDict(m) => PyDict(map k | k in m :: Thaw(m[k]))
    case PyMappingProxy(m) => PyDict(map k | k in m :: Thaw(m[k]))
    case PyTuple(xs) => PyList(seq(|xs|, i requires 0 <= i < |xs| => Thaw(xs[i])))
    case _ => v
  }

  /** Values that JSON text can carry: what `json.loads` can return. */
  predicate IsJson(v: PyValue) {
    match v
    case PyDict(m) => forall k | k in m :: IsJson(m[k])
    case PyList(xs) => forall i | 0 <= i < |xs| :: IsJson(xs[i])
    case PyTuple(_) => false
    case PyMappingProxy(_) => false
    case _ => true
  }

  lemma {:induction false} ThawUndoesFreeze(v: PyValue)
    requires IsJson(v)
    ensures Thaw(Freeze(v)) == v
  {
    match v
    case PyDict(m) =>
      forall k | k in m ensures Thaw(Freeze(m[k])) == m[k] { ThawUndoesFreeze(m[k]); }
      var frozen := map k | k in m :: Freeze(m[k]);
      assert (map k | k in frozen :: Thaw(frozen[k])) == m;
    case PyList(xs) =>
      forall i | 0 <= i < |xs| ensures Thaw(Freeze(xs[i])) == xs[i] { ThawUndoesFreeze(xs[i]); }
      var frozen := seq(|xs|, i requires 0 <= i < |xs| => Freeze(xs[i]));
      assert seq(|frozen|, i requires 0 <= i < |frozen| => Thaw(frozen[i])) == xs;
    case _ =>
  }

  // ---- Plans --------------------------------------------------------------

  datatype GraphTarget = GraphTarget(graphUrl: string, graphName: string, graphspace: Option<string>)

  datatype OperationPlan = OperationPlan(
    operationId: string, kind: string,
    target: PyValue, expectedState: PyValue, desiredState: PyValue,
    dependsOn: seq<string>, idempotencyKey: Option<string>)

  datatype PlanHeader = PlanHeader(
    planId: string, toolName: string, graphTarget: GraphTarget, principal: string,
    payloadDigest: string, schemaFingerprint: Option<string>, createdAt: int, expiresAt: int)

  datatype WritePlan = WritePlan(header: PlanHeader, operations: seq<OperationPlan>, status: PlanStatus)

  /** What `OperationPlan.__post_init__` stores: frozen states. */
  function NewOperation(o: OperationPlan): OperationPlan {
    o.(target := Freeze(o.target), expectedState := Freeze(o.expectedState), desiredState := Freeze(o.desiredState))
  }

  function OperationToDict(o: OperationPlan): OperationPlan {
    o.(target := Thaw(o.target), expectedState := Thaw(o.expectedState), desiredState := Thaw(o.desiredState))
  }

  /** The operation was built from JSON-valued states. */
  ghost predicate FromJson(o: OperationPlan) {
    exists raw: OperationPlan ::
      IsJson(raw.target) && IsJson(raw.expectedState) && IsJson(raw.desiredState) && o == NewOperation(raw)
  }

  lemma OperationSurvivesPersistence(o: OperationPlan)
    requires FromJson(o)
    ensures NewOperation(OperationToDict(o)) == o
  {
    var raw: OperationPlan :|
      IsJson(raw.target) && IsJson(raw.expectedState) && IsJson(raw.desiredState) && o == NewOperation(raw);
    ThawUndoesFreeze(raw.target);
    ThawUndoesFreeze(raw.expectedState);
    ThawUndoesFreeze(raw.desiredState);
  }

  /** Each operation id is new, and each dependency names an earlier operation. */
  ghost predicate WellOrdered(ops: seq<OperationPlan>) {
    WellOrderedUpTo(ops, |ops|)
  }

  ghost predicate WellOrderedUpTo(ops: seq<OperationPlan>, n: nat)
    requires n <= |ops|
  {
    && (forall i, j | 0 <= i < j < n :: ops[i].operationId != ops[j].operationId)
    && (forall j, d | 0 <= j < n && d in ops[j].dependsOn ::
          exists i | 0 <= i < j :: ops[i].operationId == d)
  }

  datatype PlanError = EmptyPlanId | EmptyToolName | DuplicateOperation(id: string)
                     | MissingDependency(operation: string) | BadExpiry

  /** `WritePlan.__post_init__`: accepts exactly the well-ordered, well-dated plans. */
  method ValidatePlan(plan: WritePlan) returns (r: Result<(), PlanError>)
    ensures r.Success? <==>
            && plan.header.planId != "" && plan.header.toolName != ""
            && WellOrdered(plan.operations)
            && 0 <= plan.header.createdAt < plan.header.expiresAt
  {
    if plan.header.planId == "" { return Failure(EmptyPlanId); }
    if plan.header.toolName == "" { return Failure(EmptyToolName); }
    var ops := plan.operations;
    var seen: set<string> := {};
    for n := 0 to |ops|
      invariant WellOrderedUpTo(ops, n)
      invariant forall d :: d in seen <==> exists i | 0 <= i < n :: ops[i].operationId == d
    {
      var op := ops[n];
      if op.operationId in seen { return Failure(DuplicateOperation(op.operationId)); }
      if exists d | d in op.dependsOn :: d !in seen {
        ghost var d :| d in op.dependsOn && d !in seen;
        assert forall i | 0 <= i < n :: ops[i].operationId != d;
        return Failure(MissingDependency(op.operationId));
      }
      seen := seen + {op.operationId};
    }
    if plan.header.createdAt < 0 || plan.header.expiresAt <= plan.header.createdAt {
      return Failure(BadExpiry);
    }
    r := Success(());
  }
}
