/** The transactions of the confirmation ledger (confirmation_store.py) on the rows of its three
    tables. Clock readings are parameters: calls take theirs before they reach the database, so
    those of successive transactions need not be in order. */
module ConfirmationLedger {
  import opened Wrappers
  import opened WritePlans

  /** A nonce stands for its digest. */
  type Nonce = string
  type PlanHash = string

  const TTL_SECONDS: int := 600

  datatype ConsumedRow = ConsumedRow(planHash: PlanHash, expiresAt: int, consumedAt: int)

  datatype IssuedRow = IssuedRow(planHash: PlanHash, expiresAt: int, issuedAt: int, payload: Option<string>)

  datatype OperationRow = OperationRow(
    nonce: Nonce, payload: Option<string>, status: PlanStatus, receipt: Option<string>, updatedAt: int)

  /** Primary keys: the nonce, the nonce, and the plan hash; the nonces of `operations` are UNIQUE. */
  datatype Ledger = Ledger(
    consumed: map<Nonce, ConsumedRow>, issued: map<Nonce, IssuedRow>, operations: map<PlanHash, OperationRow>)

  datatype LedgerError = AlreadyUsed | NotIssued | PlanMismatch | PlanExpired

  const EMPTY := Ledger(map[], map[], map[])

  function AfterCleanup(l: Ledger, now: int): Ledger {
    l.(consumed := map n | n in l.consumed && l.consumed[n].expiresAt >= now :: l.consumed[n],
       issued := map n | n in l.issued && l.issued[n].expiresAt >= now :: l.issued[n])
  }

  predicate ValidTtl(expiresAt: int, now: int) {
    now < expiresAt <= now + TTL_SECONDS
  }

  /** An issued nonce keeps its plan hash: only the same plan may be issued again under it. */
  function AfterIssue(l: Ledger, nonce: Nonce, planHash: PlanHash, expiresAt: int, payload: Option<string>, now: int)
    : Result<Ledger, LedgerError>
  {
    if nonce in l.issued && l.issued[nonce].planHash != planHash then Failure(PlanMismatch)
    else Success(l.(issued := l.issued[nonce := IssuedRow(planHash, expiresAt, now, payload)]))
  }

  predicate NonceInOperations(l: Ledger, nonce: Nonce) {
    exists h :: h in l.operations && l.operations[h].nonce == nonce
  }

  /** The transaction of `consume`: any failure rolls back all of it. */
  function AfterConsume(l: Ledger, nonce: Nonce, planHash: PlanHash, expiresAt: int, now: int)
    : Result<Ledger, LedgerError>
  {
    if nonce in l.consumed then Failure(AlreadyUsed)
    else if nonce !in l.issued then Failure(NotIssued)
    else
      var issued := l.issued[nonce];
      if issued.planHash != planHash || issued.expiresAt != expiresAt then Failure(PlanMismatch)
      else if now > issued.expiresAt || issued.expiresAt > issued.issuedAt + TTL_SECONDS then Failure(PlanExpired)
      else if planHash in l.operations || NonceInOperations(l, nonce) then Failure(AlreadyUsed)
      else
        Success(Ledger(
          l.consumed[nonce := ConsumedRow(planHash, expiresAt, now)],
          l.issued - {nonce},
          l.operations[planHash := OperationRow(nonce, issued.payload, Executing, None, now)]))
  }

  function AfterOutcome(l: Ledger, planHash: PlanHash, status: PlanStatus, receipt: string, now: int)
    : Result<Ledger, LedgerError>
  {
    if planHash !in l.operations then Failure(NotIssued)
    else Success(l.(operations := l.operations[planHash :=
                      l.operations[planHash].(status := status, receipt := Some(receipt), updatedAt := now)]))
  }
}

/** The ledger itself. */
module ConfirmationStores {
  import opened Wrappers
  import opened WritePlans
  import opened ConfirmationLedger

  class ConfirmationStore {
    var consumed: map<Nonce, ConsumedRow>
    var issued: map<Nonce, IssuedRow>
    var operations: map<PlanHash, OperationRow>

    constructor ()
      ensures Rows() == EMPTY
    {
      consumed, issued, operations := map[], map[], map[];
    }

    ghost function Rows(): Ledger
      reads this
    {
      Ledger(consumed, issued, operations)
    }

    method CleanupExpired(now: int)
      modifies this`consumed, this`issued
      ensures Rows() == AfterCleanup(old(Rows()), now)
    {
      consumed := map n | n in consumed && consumed[n].expiresAt >= now :: consumed[n];
      issued := map n | n in issued && issued[n].expiresAt >= now :: issued[n];
    }

    method HasConsumed(nonce: Nonce) returns (r: bool)
      ensures r <==> nonce != "" && nonce in consumed
    {
      r := nonce != "" && nonce in consumed;
    }

    method Issue(nonce: Nonce, planHash: PlanHash, expiresAt: int, payload: Option<string>, now: int)
      returns (r: Result<(), LedgerError>)
      modifies this
      ensures !ValidTtl(expiresAt, now) ==> r == Failure(PlanExpired) && Rows() == old(Rows())
      ensures ValidTtl(expiresAt, now) ==>
                var outcome := AfterIssue(AfterCleanup(old(Rows()), now), nonce, planHash, expiresAt, payload, now);
                && (r.Success? <==> outcome.Success?)
                && (r.Failure? ==> r.error == outcome.error)
                && Rows() == if outcome.Success? then outcome.value else AfterCleanup(old(Rows()), now)
    {
      if expiresAt <= now || expiresAt > now + TTL_SECONDS { return Failure(PlanExpired); }
      CleanupExpired(now);
      var row := IssuedRow(planHash, expiresAt, now, payload);
      if nonce !in issued {
        issued := issued[nonce := row];
      } else if issued[nonce].planHash == planHash {
        issued := issued[nonce := row];
      }
      if (issued[nonce].planHash, issued[nonce].expiresAt, issued[nonce].payload) != (planHash, expiresAt, payload) {
        return Failure(PlanMismatch);
      }
      r := Success(());
    }

    /** The cleanup is best effort: `cleanupFails` says whether it was rolled back. */
    method Consume(nonce: Nonce, planHash: PlanHash, expiresAt: int, now: int, cleanupFails: bool)
      returns (r: Result<Option<string>, LedgerError>)
      modifies this
      ensures var before := if cleanupFails then old(Rows()) else AfterCleanup(old(Rows()), now);
              var outcome := AfterConsume(before, nonce, planHash, expiresAt, now);
              && Rows() == (if outcome.Success? then outcome.value else before)
              && r == if outcome.Failure? then Failure(outcome.error) else Success(before.issued[nonce].payload)
    {
      if !cleanupFails { CleanupExpired(now); }
      if nonce in consumed { return Failure(AlreadyUsed); }
      if nonce !in issued { return Failure(NotIssued); }
      var row := issued[nonce];
      if row.planHash != planHash || row.expiresAt != expiresAt { return Failure(PlanMismatch); }
      if now > row.expiresAt || row.expiresAt > row.issuedAt + TTL_SECONDS { return Failure(PlanExpired); }
      var inserted := consumed[nonce := ConsumedRow(planHash, expiresAt, now)];
      if planHash in operations || exists h :: h in operations && operations[h].nonce == nonce {
        return Failure(AlreadyUsed);
      }
      consumed := inserted;
      operations := operations[planHash := OperationRow(nonce, row.payload, Executing, None, now)];
      issued := issued - {nonce};
      r := Success(row.payload);
    }

    method RecordOutcome(planHash: PlanHash, status: PlanStatus, receipt: string, now: int)
      returns (r: Result<(), LedgerError>)
      modifies this`operations
      ensures var outcome := AfterOutcome(old(Rows()), planHash, status, receipt, now);
              && (r.Success? <==> outcome.Success?)
              && (r.Failure? ==> r.error == outcome.error)
              && Rows() == if outcome.Success? then outcome.value else old(Rows())
    {
      if planHash !in operations { return Failure(NotIssued); }
      var op := operations[planHash];
      operations := operations[planHash := op.(status := status, receipt := Some(receipt), updatedAt := now)];
      r := Success(());
    }
  }
}

/** Single use, over every run of any number of clients. */
module SingleUse {
  import opened Wrappers
  import opened WritePlans
  import opened ConfirmationLedger

  /** One transaction of some client. */
  datatype Step =
    | Cleanup(now: int)
    | Issue(nonce: Nonce, planHash: PlanHash, expiresAt: int, payload: Option<string>, now: int)
    | Consume(nonce: Nonce, planHash: PlanHash, expiresAt: int, now: int)
    | RecordOutcome(planHash: PlanHash, status: PlanStatus, receipt: string, now: int)

  function Attempt(l: Ledger, step: Step): Result<Ledger, LedgerError> {
    match step
    case Cleanup(now) => Success(AfterCleanup(l, now))
    case Issue(nonce, planHash, expiresAt, payload, now) =>
      if ValidTtl(expiresAt, now) then AfterIssue(l, nonce, planHash, expiresAt, payload, now) else Failure(PlanExpired)
    case Consume(nonce, planHash, expiresAt, now) => AfterConsume(l, nonce, planHash, expiresAt, now)
    case RecordOutcome(planHash, status, receipt, now) => AfterOutcome(l, planHash, status, receipt, now)
  }

  function Apply(l: Ledger, step: Step): Ledger {
    if Attempt(l, step).Success? then Attempt(l, step).value else l
  }

  function Run(l: Ledger, steps: seq<Step>): Ledger {
    if steps == [] then l else Apply(Run(l, steps[..|steps| - 1]), steps[|steps| - 1])
  }

  /** A `consume` that succeeded. */
  datatype Use = Use(nonce: Nonce, planHash: PlanHash)

  function UsesOf(l: Ledger, step: Step): seq<Use> {
    if step.Consume? && Attempt(l, step).Success? then [Use(step.nonce, step.planHash)] else []
  }

  /** The successful consumes of a run from the empty ledger, in order. */
  function History(steps: seq<Step>): seq<Use> {
    if steps == [] then []
    else
      var before := steps[..|steps| - 1];
      History(before) + UsesOf(Run(EMPTY, before), steps[|steps| - 1])
  }

  predicate Used(uses: seq<Use>, nonce: Nonce, planHash: PlanHash) {
    exists u :: u in uses && (u.nonce == nonce || u.planHash == planHash)
  }

  predicate AllDifferent(uses: seq<Use>) {
    forall i, j | 0 <= i < j < |uses| :: uses[i].nonce != uses[j].nonce && uses[i].planHash != uses[j].planHash
  }

  /** What the tables remember about the successful consumes so far. */
  ghost predicate Remembers(l: Ledger, uses: seq<Use>) {
    && (forall u | u in uses :: u.planHash in l.operations && l.operations[u.planHash].nonce == u.nonce)
    && (forall h | h in l.operations :: Use(l.operations[h].nonce, h) in uses)
    && (forall n | n in l.consumed :: NonceInOperations(l, n))
    && (forall n | n in l.issued :: l.issued[n].expiresAt <= l.issued[n].issuedAt + TTL_SECONDS)
  }

  /** Rows of write_operations are never deleted and keep their nonce. */
  lemma KeepsNonces(l: Ledger, step: Step, n: Nonce)
    requires n in Apply(l, step).consumed && (n in l.consumed ==> NonceInOperations(l, n))
    ensures NonceInOperations(Apply(l, step), n)
  {
    var l' := Apply(l, step);
    if n in l.consumed {
      var h :| h in l.operations && l.operations[h].nonce == n;
      assert h in l'.operations && l'.operations[h].nonce == n;
    } else {
      assert l'.operations[step.planHash].nonce == n;
    }
  }

  /** A use that the operations table does not show would be accepted, one that it shows is not. */
  lemma UsedMeansInOperations(l: Ledger, uses: seq<Use>, nonce: Nonce, planHash: PlanHash)
    requires Remembers(l, uses)
    ensures Used(uses, nonce, planHash) <==> planHash in l.operations || NonceInOperations(l, nonce)
  {
    if planHash in l.operations { assert Use(l.operations[planHash].nonce, planHash) in uses; }
    if NonceInOperations(l, nonce) {
      var h :| h in l.operations && l.operations[h].nonce == nonce;
      assert Use(nonce, h) in uses;
    }
  }

  lemma StepRemembers(l: Ledger, uses: seq<Use>, step: Step)
    requires Remembers(l, uses) && AllDifferent(uses)
    ensures Remembers(Apply(l, step), uses + UsesOf(l, step)) && AllDifferent(uses + UsesOf(l, step))
  {
    var l' := Apply(l, step);
    forall n | n in l'.consumed ensures NonceInOperations(l', n) {
      KeepsNonces(l, step, n);
    }
    if step.Consume? && Attempt(l, step).Success? {
      UsedMeansInOperations(l, uses, step.nonce, step.planHash);
      ConsumeRemembers(l, uses, step);
    } else {
      assert uses + UsesOf(l, step) == uses;
      OthersKeepUses(l, step);
    }
    hide NonceInOperations, AllDifferent, Used;
  }

  /** Only a consume adds an operation or changes the nonce of one. */
  lemma OthersKeepUses(l: Ledger, step: Step)
    requires !(step.Consume? && Attempt(l, step).Success?)
    ensures Apply(l, step).operations.Keys == l.operations.Keys
    ensures forall h | h in l.operations :: Apply(l, step).operations[h].nonce == l.operations[h].nonce
  {
  }

  lemma ConsumeRemembers(l: Ledger, uses: seq<Use>, step: Step)
    requires Remembers(l, uses) && AllDifferent(uses)
    requires step.Consume? && Attempt(l, step).Success? && !Used(uses, step.nonce, step.planHash)
    ensures var uses' := uses + [Use(step.nonce, step.planHash)];
            && AllDifferent(uses')
            && (forall u | u in uses' ::
                  u.planHash in Apply(l, step).operations && Apply(l, step).operations[u.planHash].nonce == u.nonce)
            && (forall h | h in Apply(l, step).operations :: Use(Apply(l, step).operations[h].nonce, h) in uses')
  {
    forall i | 0 <= i < |uses| ensures uses[i].nonce != step.nonce && uses[i].planHash != step.planHash {
      assert uses[i] in uses;
    }
  }

  lemma {:induction false} RunRemembers(steps: seq<Step>)
    ensures Remembers(Run(EMPTY, steps), History(steps)) && AllDifferent(History(steps))
  {
    if steps != [] {
      var before := steps[..|steps| - 1];
      RunRemembers(before);
      StepRemembers(Run(EMPTY, before), History(before), steps[|steps| - 1]);
    }
  }

  /** Single use for ever: whatever was cleaned up and issued again meanwhile, no two successful
      consumes of a run share their nonce or their plan hash. */
  lemma SingleUseForEver(steps: seq<Step>)
    ensures AllDifferent(History(steps))
  {
    RunRemembers(steps);
  }

  /** `consume` succeeds exactly when the nonce is issued for this plan and expiry, in time, and
      neither the nonce nor the plan was ever consumed before. */
  lemma ConsumeSucceedsExactly(steps: seq<Step>, nonce: Nonce, planHash: PlanHash, expiresAt: int, now: int)
    ensures var l := Run(EMPTY, steps);
            AfterConsume(l, nonce, planHash, expiresAt, now).Success?
            <==>
            && nonce in l.issued && l.issued[nonce].planHash == planHash && l.issued[nonce].expiresAt == expiresAt
            && now <= expiresAt
            && !Used(History(steps), nonce, planHash)
  {
    hide Run, History, Used;
    RunRemembers(steps);
    UsedMeansInOperations(Run(EMPTY, steps), History(steps), nonce, planHash);
  }

  /** The best-effort cleanup never authorizes and never blocks: with or without it, the same
      consumes succeed, and they leave the same rows but for the expired ones. */
  lemma CleanupNeverDecides(steps: seq<Step>, nonce: Nonce, planHash: PlanHash, expiresAt: int, now: int)
    ensures var l := Run(EMPTY, steps);
            var kept := AfterConsume(l, nonce, planHash, expiresAt, now);
            var cleaned := AfterConsume(AfterCleanup(l, now), nonce, planHash, expiresAt, now);
            && (kept.Success? <==> cleaned.Success?)
            && (kept.Success? ==> AfterCleanup(kept.value, now) == cleaned.value)
  {
    hide Run, History;
    RunRemembers(steps);
    CleanupIsHarmless(Run(EMPTY, steps), History(steps), nonce, planHash, expiresAt, now);
  }

  lemma CleanupIsHarmless(l: Ledger, uses: seq<Use>, nonce: Nonce, planHash: PlanHash, expiresAt: int, now: int)
    requires Remembers(l, uses)
    ensures var kept := AfterConsume(l, nonce, planHash, expiresAt, now);
            var cleaned := AfterConsume(AfterCleanup(l, now), nonce, planHash, expiresAt, now);
            && (kept.Success? <==> cleaned.Success?)
            && (kept.Success? ==> AfterCleanup(kept.value, now) == cleaned.value)
  {
    assert NonceInOperations(l, nonce) <==> NonceInOperations(AfterCleanup(l, now), nonce);
    var kept := AfterConsume(l, nonce, planHash, expiresAt, now);
    if kept.Success? {
      assert AfterCleanup(kept.value, now).issued == AfterCleanup(l, now).issued - {nonce};
      assert AfterCleanup(kept.value, now).consumed
          == AfterCleanup(l, now).consumed[nonce := kept.value.consumed[nonce]];
    }
  }

  /** `has_consumed` never accuses a fresh nonce. */
  lemma ConsumedRowsAreUses(steps: seq<Step>, nonce: Nonce)
    requires nonce in Run(EMPTY, steps).consumed
    ensures exists u :: u in History(steps) && u.nonce == nonce
  {
    hide Run, History;
    var l := Run(EMPTY, steps);
    RunRemembers(steps);
    var h :| h in l.operations && l.operations[h].nonce == nonce;
    assert Use(nonce, h) in History(steps);
  }

  lemma Extend(steps: seq<Step>, step: Step)
    ensures Run(EMPTY, steps + [step]) == Apply(Run(EMPTY, steps), step)
    ensures History(steps + [step]) == History(steps) + UsesOf(Run(EMPTY, steps), step)
  {
    assert (steps + [step])[..|steps|] == steps;
  }

  /** The table of consumed nonces alone would not do: after its row expired and was deleted, a
      consumed nonce can be issued once more, even for another plan, and is refused all the same. */
  lemma CleanedNonceIsStillRefused(nonce: Nonce, planHash: PlanHash, other: PlanHash, t: int)
    requires planHash != other
    ensures var steps := [Issue(nonce, planHash, t + 600, None, t), Consume(nonce, planHash, t + 600, t),
                          Cleanup(t + 601), Issue(nonce, other, t + 1000, None, t + 700)];
            var l := Run(EMPTY, steps);
            && History(steps) == [Use(nonce, planHash)]
            && nonce !in l.consumed && nonce in l.issued && l.issued[nonce].planHash == other
            && AfterConsume(l, nonce, other, t + 1000, t + 701) == Failure(AlreadyUsed)
  {
    var a, b := Issue(nonce, planHash, t + 600, None, t), Consume(nonce, planHash, t + 600, t);
    var c, d := Cleanup(t + 601), Issue(nonce, other, t + 1000, None, t + 700);
    assert Run(EMPTY, []) == EMPTY && History([]) == [];
    hide Run, History;
    Extend([], a);
    Extend([] + [a], b);
    Extend([] + [a] + [b], c);
    Extend([] + [a] + [b] + [c], d);
    assert [] + [a] + [b] + [c] + [d] == [a, b, c, d];
    var l := Run(EMPTY, [a, b, c, d]);
    assert l.operations[planHash].nonce == nonce;
  }

  // ---- Where the rows come from ------------------------------------------------------------------

  /** What the rows say was really asked for; who issued what is issued or was
      consumed, and with which payload. */
  ghost predicate RowsAreFounded(l: Ledger, steps: seq<Step>) {
    && (forall n | n in l.issued ::
          var row := l.issued[n]; Issue(n, row.planHash, row.expiresAt, row.payload, row.issuedAt) in steps)
    && (forall n | n in l.consumed ::
          var row := l.consumed[n]; Consume(n, row.planHash, row.expiresAt, row.consumedAt) in steps)
    && (forall h | h in l.operations ::
          exists expiresAt, at :: Issue(l.operations[h].nonce, h, expiresAt, l.operations[h].payload, at) in steps)
  }

  lemma StepIsFounded(l: Ledger, steps: seq<Step>, step: Step)
    requires RowsAreFounded(l, steps)
    ensures RowsAreFounded(Apply(l, step), steps + [step])
  {
    var l', more := Apply(l, step), steps + [step];
    assert step in more && forall s | s in steps :: s in more;
    forall h | h in l'.operations
      ensures exists expiresAt, at :: Issue(l'.operations[h].nonce, h, expiresAt, l'.operations[h].payload, at) in more
    {
      if h in l.operations {
        var expiresAt, at :| Issue(l.operations[h].nonce, h, expiresAt, l.operations[h].payload, at) in steps;
        assert Issue(l'.operations[h].nonce, h, expiresAt, l'.operations[h].payload, at) in more;
      } else {
        var row := l.issued[step.nonce];
        assert Issue(step.nonce, row.planHash, row.expiresAt, row.payload, row.issuedAt) in more;
      }
    }
  }

  /** Every row goes back to a request: a consumed operation carries the payload that was issued for its plan
      under its nonce. */
  lemma {:induction false} RowsComeFromRequests(steps: seq<Step>)
    ensures RowsAreFounded(Run(EMPTY, steps), steps)
  {
    if steps != [] {
      var before := steps[..|steps| - 1];
      RowsComeFromRequests(before);
      StepIsFounded(Run(EMPTY, before), before, steps[|steps| - 1]);
      assert steps == before + [steps[|steps| - 1]];
    }
  }

  /** The outcome that was last recorded for a plan since it was consumed; EXECUTING until there is one. */
  function Standing(steps: seq<Step>, planHash: PlanHash): Option<(PlanStatus, Option<string>)> {
    if steps == [] then None
    else
      var before, last := steps[..|steps| - 1], steps[|steps| - 1];
      if exists u :: u in UsesOf(Run(EMPTY, before), last) && u.planHash == planHash then Some((Executing, None))
      else if last.RecordOutcome? && last.planHash == planHash && Standing(before, planHash).Some? then
        Some((last.status, Some(last.receipt)))
      else Standing(before, planHash)
  }

  /** What the operations table shows of a plan. */
  function Shown(l: Ledger, planHash: PlanHash): Option<(PlanStatus, Option<string>)> {
    if planHash !in l.operations then None
    else Some((l.operations[planHash].status, l.operations[planHash].receipt))
  }

  lemma StepShows(l: Ledger, step: Step, planHash: PlanHash)
    ensures Shown(Apply(l, step), planHash)
            == if exists u :: u in UsesOf(l, step) && u.planHash == planHash then Some((Executing, None))
               else if step.RecordOutcome? && step.planHash == planHash && Shown(l, planHash).Some? then
                 Some((step.status, Some(step.receipt)))
               else Shown(l, planHash)
  {
    if step.Consume? && Attempt(l, step).Success? {
      assert UsesOf(l, step)[0].planHash == step.planHash;
    }
  }

  /** A consumed plan is EXECUTING, without a receipt, until an outcome is recorded, and then shows the last
      one; no other plan has an operation. */
  lemma {:induction false} OutcomesAreShown(steps: seq<Step>, planHash: PlanHash)
    ensures Standing(steps, planHash) == Shown(Run(EMPTY, steps), planHash)
  {
    if steps != [] {
      var before := steps[..|steps| - 1];
      OutcomesAreShown(before, planHash);
      StepShows(Run(EMPTY, before), steps[|steps| - 1], planHash);
    }
    hide Apply, UsesOf, Shown;
  }
}
