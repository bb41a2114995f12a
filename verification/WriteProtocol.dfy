/** The plan protocol as a state machine: every store transaction, adapter call, crash and
    clock tick is one step, and the steps of all executors and reconcilers interleave. */
module WriteProtocol {
  import opened Wrappers
  import opened WritePlans
  import opened PlanRows

  /** Where one `confirm` or `resume` call is. `claimable` is the status it may dispatch. A resume
      call reads the plan and its operations separately before it claims: that its guard has passed
      does not mean that the guard holds of the row as it is now. */
  datatype Worker =
    | PlanRead(status: PlanStatus)
    | GuardPassed
    | Claimed(claimable: PlanStatus)
    | Looping(claimable: PlanStatus, snapshot: seq<PlanStatus>, next: nat)
    | Dispatching(claimable: PlanStatus, snapshot: seq<PlanStatus>, next: nat, token: Token, attempt: nat)
    | Calling(claimable: PlanStatus, snapshot: seq<PlanStatus>, next: nat, token: Token, attempt: nat)
    | Returned(claimable: PlanStatus, snapshot: seq<PlanStatus>, next: nat, token: Token, attempt: nat,
               result: ApplyStatus)
    | Stopped

  /** Where one `reconcile` call is. `Fencing`: its fencing block has committed, and found the plan in
      the status `seen`; `Cleared`: the status that it read after that lets it go on. */
  datatype Reconciler =
    | Fencing(seen: PlanStatus)
    | Cleared
    | Scanning(rows: seq<OpRow>, next: nat)
    | Observed(rows: seq<OpRow>, next: nat, verdict: ApplyStatus)
    | Finished

  /** `calls` counts adapter calls per operation; `winners` lists who claimed the ISSUED plan. */
  datatype Sys = Sys(
    row: PlanRow, clock: int, workers: map<Token, Worker>, reconcilers: map<nat, Reconciler>,
    calls: seq<nat>, winners: seq<Token>)

  /** What a `confirm` or `resume` call does next. It reads the clock, at `now`, before it waits for the
      transaction in which it claims the plan. */
  datatype Action =
    | ConfirmClaim(now: int, seconds: int)
    | ReadPlan
    | CheckGuard
    | ResumeClaim(now: int, seconds: int)
    | ReadRecord
    | SkipOperation
    | ClaimOp(token: Token, seconds: int)
    | CallAdapter
    | AdapterReturns(result: ApplyStatus)
    | Record
    | Stop

  /** What a `reconcile` call does next. */
  datatype Inspection =
    | Fence
    | CheckStatus
    | ReadSnapshot
    | SkipRow
    | Observe(observed: ApplyStatus)
    | RecordVerdict
    | Quit

  datatype Step =
    | Tick(elapsed: nat)
    | Expire
    | Work(owner: Token, action: Action)
    | Reconcile(rid: nat, inspection: Inspection)

  ghost predicate Init(s: Sys) {
    && |s.row.ops| > 0
    && s.row.status == Issued && s.row.leaseOwner == None && s.row.leaseExpires == None
    && (forall op | op in s.row.ops :: op.status == Issued && op.attempt == 0)
    && s.workers == map[] && s.reconcilers == map[]
    && |s.calls| == |s.row.ops| && (forall c | c in s.calls :: c == 0)
    && s.winners == []
  }

  predicate AdapterResult(status: PlanStatus) {
    status in {Applied, AlreadyApplied, Rejected, Conflict, Unknown}
  }

  predicate Unresolved(status: PlanStatus) {
    status == Executing || status == Unknown || status == LegacyUnknown
  }

  /** The status with which `reconcile` goes on. */
  predicate MayReconcile(status: PlanStatus) {
    status in {Unknown, LegacyUnknown, Partial}
  }

  /** What `reconcile` writes for an operation: a read cannot undo a dispatch. */
  function Verdict(snapshot: OpRow, observed: ApplyStatus): ApplyStatus {
    if observed == RetryableNotApplied && snapshot.attempt > 0 then Unknown else observed
  }

  function ReceiptOf(w: Worker): Receipt
    requires w.Returned?
  {
    Receipt(w.result, w.attempt, Some(w.token))
  }

  function VerdictReceipt(snapshot: OpRow, verdict: ApplyStatus): Receipt {
    Receipt(verdict, snapshot.attempt, None)
  }

  /** One step of the call that holds `owner`: the new plan row and where the call is then.
      None when the step is not possible; any call may stop or crash at any point. */
  function WorkerMove(row: PlanRow, clock: int, owner: Token, w: Option<Worker>, action: Action)
    : Option<(PlanRow, Worker)>
  {
    match (w, action)
    case (None, ConfirmClaim(now, seconds)) =>
      var (claimedRow, claimed) := ClaimPlan(row, owner, now, seconds, false);
      if now <= clock && seconds > 0 && claimed then Some((claimedRow, Claimed(Issued))) else None
    case (None, ReadPlan) => Some((row, PlanRead(row.status)))
    case (Some(PlanRead(status)), CheckGuard) =>
      if GuardOver(status, row.ops) then Some((row, GuardPassed)) else None
    case (Some(GuardPassed), ResumeClaim(now, seconds)) =>
      var (claimedRow, claimed) := ClaimPlan(row, owner, now, seconds, true);
      if now <= clock && seconds > 0 && claimed then Some((claimedRow, Claimed(RetryableNotApplied))) else None
    case (Some(Claimed(claimable)), ReadRecord) =>
      Some((row, Looping(claimable, Statuses(row.ops), 0)))
    case (Some(Looping(claimable, snapshot, next)), SkipOperation) =>
      if next < |snapshot| && snapshot[next] != claimable then Some((row, Looping(claimable, snapshot, next + 1)))
      else None
    case (Some(Looping(claimable, snapshot, next)), ClaimOp(token, seconds)) =>
      var outcome := ClaimOperation(row, next, Some(owner), token, clock, seconds);
      if next < |snapshot| && snapshot[next] == claimable && seconds > 0 && outcome.Success? then
        Some((outcome.value, Dispatching(claimable, snapshot, next, token, outcome.value.ops[next].attempt)))
      else None
    case (Some(Dispatching(claimable, snapshot, next, token, attempt)), CallAdapter) =>
      Some((row, Calling(claimable, snapshot, next, token, attempt)))
    case (Some(Calling(claimable, snapshot, next, token, attempt)), AdapterReturns(result)) =>
      if AdapterResult(result) then Some((row, Returned(claimable, snapshot, next, token, attempt, result))) else None
    case (Some(Returned(claimable, snapshot, next, token, attempt, result)), Record) =>
      var outcome := RecordReceipt(row, next, ReceiptOf(w.value), Some(owner), Some(token), clock);
      if outcome.Failure? then None
      else Some((outcome.value, if IsSuccess(result) then Looping(claimable, snapshot, next + 1) else Stopped))
    case (Some(_), Stop) => Some((row, Stopped))
    case _ => None
  }

  /** One step of a reconciling call. */
  function ReconcilerMove(row: PlanRow, clock: int, r: Option<Reconciler>, inspection: Inspection)
    : Option<(PlanRow, Reconciler)>
  {
    match (r, inspection)
    case (None, Fence) =>
      var outcome := BeginReconcile(row, clock);
      if outcome.Failure? then None else Some((outcome.value, Fencing(row.status)))
    case (Some(Fencing(_)), CheckStatus) => Some((row, if MayReconcile(row.status) then Cleared else Finished))
    case (Some(Cleared), ReadSnapshot) => Some((row, Scanning(row.ops, 0)))
    case (Some(Scanning(rows, next)), SkipRow) =>
      if next < |rows| && rows[next].status != Issued && !Unresolved(rows[next].status) then
        Some((row, Scanning(rows, next + 1)))
      else None
    case (Some(Scanning(rows, next)), Observe(observed)) =>
      if next < |rows| && Unresolved(rows[next].status) && observed in {Applied, RetryableNotApplied, Conflict} then
        Some((row, Observed(rows, next, Verdict(rows[next], observed))))
      else None
    case (Some(Scanning(rows, next)), RecordVerdict) =>
      if next < |rows| && rows[next].status == Issued then
        RecordMove(row, rows, next, RetryableNotApplied)
      else None
    case (Some(Observed(rows, next, verdict)), RecordVerdict) =>
      if next < |rows| then RecordMove(row, rows, next, verdict) else None
    case (Some(_), Quit) => Some((row, Finished))
    case _ => None
  }

  function RecordMove(row: PlanRow, rows: seq<OpRow>, next: nat, verdict: ApplyStatus): Option<(PlanRow, Reconciler)>
    requires next < |rows|
  {
    var outcome := RecordReconciliation(row, next, VerdictReceipt(rows[next], verdict));
    if outcome.Failure? then None else Some((outcome.value, Scanning(rows, next + 1)))
  }

  function WorkerOf(s: Sys, owner: Token): Option<Worker> {
    if owner in s.workers then Some(s.workers[owner]) else None
  }

  function ReconcilerOf(s: Sys, rid: nat): Option<Reconciler> {
    if rid in s.reconcilers then Some(s.reconcilers[rid]) else None
  }

  function CountCall(calls: seq<nat>, w: Worker): seq<nat> {
    if w.Calling? && w.next < |calls| then calls[w.next := calls[w.next] + 1] else calls
  }

  /** The successor state, or None when the step is not possible. */
  function Apply(s: Sys, step: Step): Option<Sys> {
    match step
    case Tick(elapsed) => Some(s.(clock := s.clock + elapsed))
    case Expire =>
      var outcome := TransitionPlan(s.row, Issued, Expired, s.clock);
      if s.clock > s.row.header.expiresAt && outcome.Success? then Some(s.(row := outcome.value)) else None
    case Work(owner, action) =>
      var move := WorkerMove(s.row, s.clock, owner, WorkerOf(s, owner), action);
      if move.None? then None
      else
        var (row, w) := move.value;
        Some(s.(row := row, workers := s.workers[owner := w],
                calls := if action.CallAdapter? then CountCall(s.calls, w) else s.calls,
                winners := if s.row.status == Issued && w.Claimed? then s.winners + [owner] else s.winners))
    case Reconcile(rid, inspection) =>
      var move := ReconcilerMove(s.row, s.clock, ReconcilerOf(s, rid), inspection);
      if move.None? then None
      else Some(s.(row := move.value.0, reconcilers := s.reconcilers[rid := move.value.1]))
  }

  /** The state after a run, or None when some step of it was not possible. */
  function Run(s: Sys, steps: seq<Step>): Option<Sys> {
    if steps == [] then Some(s)
    else
      var before := Run(s, steps[..|steps| - 1]);
      if before.None? then None else Apply(before.value, steps[|steps| - 1])
  }

  // ---- Races ------------------------------------------------------------------

  /** The call has not claimed the plan yet. */
  predicate BeforeClaim(w: Worker) {
    w.PlanRead? || w.GuardPassed?
  }

  /** The verdict that is due offers the operation for replay. */
  predicate IsReplay(r: Reconciler) {
    r.Scanning? || (r.Observed? && r.verdict == RetryableNotApplied)
  }

  /** The operation was not claimed again since the snapshot that the replay rests on. */
  predicate FreshVerdict(row: PlanRow, r: Reconciler) {
    (r.Scanning? || r.Observed?) && IsReplay(r) && r.next < |r.rows| && r.next < |row.ops| ==>
      r.rows[r.next].attempt == row.ops[r.next].attempt
  }

  /** The first operation that has not succeeded. */
  function Frontier(ops: seq<OpRow>): (k: nat)
    ensures k <= |ops|
    ensures forall i | 0 <= i < k :: IsSuccess(ops[i].status)
    ensures k < |ops| ==> !IsSuccess(ops[k].status)
  {
    if ops == [] || !IsSuccess(ops[0].status) then 0 else 1 + Frontier(ops[1..])
  }

  /** A resume call that claims this row will find nothing to dispatch behind unfinished work:
      its guard still holds, or no replay is on offer behind the first unfinished operation. */
  predicate OrderlyClaim(row: PlanRow) {
    || ResumeGuard(row)
    || forall i | Frontier(row.ops) < i < |row.ops| :: row.ops[i].status != RetryableNotApplied
  }

  predicate VerdictIsFresh(s: Sys, step: Step) {
    step.Reconcile? && step.inspection.RecordVerdict? && step.rid in s.reconcilers ==>
      FreshVerdict(s.row, s.reconcilers[step.rid])
  }

  /** A lease that has run out by the time its claim commits lets its owner do nothing. */
  predicate ClaimIsOrderly(s: Sys, step: Step) {
    step.Work? && step.action.ResumeClaim? ==>
      OrderlyClaim(s.row) || step.action.now + step.action.seconds <= s.clock
  }

  /** The guard that `reconcile` lacks: it does not go on with a PARTIAL plan under a live lease that its
      own fencing block found ISSUED, and so did not fence. */
  predicate FencedBefore(s: Sys, step: Step) {
    step.Reconcile? && step.inspection.CheckStatus? && step.rid in s.reconcilers && s.reconcilers[step.rid].Fencing? ==>
      !(s.reconcilers[step.rid].seen == Issued && s.row.status == Partial && LeaseLive(s.row, s.clock))
  }

  /** A run from s in which no replay verdict rests on a stale snapshot. */
  predicate VerdictsFresh(s: Sys, steps: seq<Step>) {
    steps == [] ||
    var init := steps[..|steps| - 1];
    VerdictsFresh(s, init) && (Run(s, steps).Some? ==> VerdictIsFresh(Run(s, init).value, steps[|steps| - 1]))
  }

  /** A run from s in which every claim past the resume guard is orderly. */
  predicate ClaimsOrderly(s: Sys, steps: seq<Step>) {
    steps == [] ||
    var init := steps[..|steps| - 1];
    ClaimsOrderly(s, init) && (Run(s, steps).Some? ==> ClaimIsOrderly(Run(s, init).value, steps[|steps| - 1]))
  }

  /** A run from s in which every reconciler goes on with a plan that it fenced. */
  predicate FencesHeld(s: Sys, steps: seq<Step>) {
    steps == [] ||
    var init := steps[..|steps| - 1];
    FencesHeld(s, init) && (Run(s, steps).Some? ==> FencedBefore(Run(s, init).value, steps[|steps| - 1]))
  }

  predicate IsResume(step: Step) {
    step.Work? && step.action.ReadPlan?
  }

  predicate WithoutResume(steps: seq<Step>) {
    forall step | step in steps :: !IsResume(step)
  }
}
