/** The call of reconciler.py, statement by statement, running against arbitrary interference. */
module Reconcilers {
  import opened Wrappers
  import opened WritePlans
  import opened PlanRows
  import opened WriteProtocol
  import opened ProtocolSafety
  import opened ExecutorSteps
  import opened CallLogs
  import opened Deployments

  predicate MissesReader(row: OpRow, readers: set<string>) {
    Unresolved(row.status) && row.payload.kind !in readers
  }

  predicate HasReaders(rows: seq<OpRow>, readers: set<string>, upTo: nat) {
    forall i: nat | i < upTo && i < |rows| :: !MissesReader(rows[i], readers)
  }

  /** The verdict that is due at row i cannot be written. */
  ghost predicate RulingDenied(s: Sys, rid: nat, rows: seq<OpRow>, i: nat) {
    && i < |rows| && Apply(s, Reconcile(rid, RecordVerdict)).None?
    && (ReconcilerOf(s, rid) == Some(Scanning(rows, i))
        || exists verdict :: ReconcilerOf(s, rid) == Some(Observed(rows, i, verdict)))
  }

  ghost function Opened(before: seq<Step>, rid: nat): seq<Step> {
    before + [Reconcile(rid, Fence)] + [Reconcile(rid, CheckStatus)]
  }

  /** The part of the call that precedes its loop. */
  method OpenScan(d: Deployment, rid: nat) returns (outcome: Outcome, rows: seq<OpRow>)
    requires d.Valid() && rid < d.nextToken && ReconcilerOf(d.sys, rid) == None
    modifies d, d.store
    ensures d.Valid() && old(d.trace) <= d.trace && d.Others() >= old(d.Others()) && d.clock >= old(d.clock)
    ensures outcome in {TransitionError, NotClaimed, Executed}
    ensures outcome == TransitionError ==> d.own == old(d.own) && LeaseLive(d.sys.row, old(d.clock))
    ensures outcome == NotClaimed ==> d.own == Opened(old(d.own), rid) && d.ReconcilerAt(rid, Finished)
    ensures outcome == Executed ==>
              && d.own == Opened(old(d.own), rid) + [Reconcile(rid, ReadSnapshot)]
              && d.ReconcilerAt(rid, Scanning(rows, 0))
              && ReadBy(d.start, d.trace, |old(d.trace)|, Reconcile(rid, ReadSnapshot), rows)
    ensures d.Others() == old(d.Others()) ==>
              && (outcome == TransitionError <==> LeaseLive(old(d.sys.row), old(d.clock)))
              && (outcome == TransitionError ==> d.sys == old(d.sys))
              && (outcome == NotClaimed ==> d.sys.row == old(d.sys.row) && !Reconciled(old(d.sys.row.status)))
              && (outcome == Executed ==>
                    && rows == old(d.sys.row.ops) == d.sys.row.ops
                    && Unheld(d.sys, rows, 0) && Reconciled(old(d.sys.row.status)))
  {
    hide Run, Apply, Deployment.Valid, ReadBy, BeginReconcile, RowInv;
    rows := [];
    ghost var s0, from := d.sys, |d.trace|;
    RowIsSound(d);
    var fenced := d.FenceNow(rid);
    if !fenced {
      outcome := TransitionError;
      return;
    }
    ghost var s1 := d.sys;
    if d.Others() == old(d.Others()) { FenceClears(s0, s1, rid); }
    var plan := d.ReadFencedPlan(rid);
    ghost var s2 := d.sys;
    if d.Others() == old(d.Others()) { InspectionKeepsRow(s1, s2, rid, CheckStatus); }
    if plan.value.status !in {Unknown, LegacyUnknown, Partial} {
      outcome := NotClaimed;
      return;
    }
    ghost var from2 := |d.trace|;
    rows := d.ReadRows(rid);
    ReadStays(d.start, d.trace, d.trace, from2, from, Reconcile(rid, ReadSnapshot), rows);
    if d.Others() == old(d.Others()) { InspectionKeepsRow(s2, d.sys, rid, ReadSnapshot); }
    outcome := Executed;
  }

  lemma RowIsSound(d: Deployment)
    requires d.Valid()
    ensures d.clock == d.sys.clock && RowInv(d.sys.row)
  {
    hide Run, Init, RowInv;
    LeaseIsOfRunningPlan(d.start, d.trace, d.sys);
  }

  /** One round of the loop: read the operation's state if it was dispatched, and write the verdict. */
  method RuleOn(d: Deployment, readers: set<string>, rid: nat, rows: seq<OpRow>, i: nat)
    returns (outcome: Outcome, verdict: ApplyStatus)
    requires d.ReconcilerAt(rid, Scanning(rows, i)) && i < |rows| && NeedsRuling(rows[i])
    modifies d, d.store
    ensures d.Valid() && old(d.trace) <= d.trace && d.Others() >= old(d.Others()) && d.clock >= old(d.clock)
    ensures outcome in {MissingAdapter, TransitionError, Executed}
    ensures outcome == MissingAdapter <==> MissesReader(rows[i], readers)
    ensures outcome == MissingAdapter ==> d.own == old(d.own) && d.ReconcilerAt(rid, Scanning(rows, i))
    ensures outcome == TransitionError ==> RulingDenied(d.sys, rid, rows, i)
    ensures outcome == Executed ==> d.ReconcilerAt(rid, Scanning(rows, i + 1)) && VerdictFits(rows[i], verdict)
    ensures Investigated(old(d.own), d.own, rid, if outcome == Executed then 1 else 0)
    ensures d.Others() == old(d.Others()) && Unheld(old(d.sys), rows, i) ==>
              && outcome != TransitionError
              && (outcome == MissingAdapter ==> d.sys == old(d.sys))
              && (outcome == Executed ==>
                    Unheld(d.sys, rows, i + 1) && Wrote(old(d.sys.row.ops), d.sys.row.ops, i, verdict))
  {
    hide Run, Apply, Deployment.Valid, Unheld, Wrote, RecordReconciliation, Investigated, RulingDenied, MissesReader;
    ghost var s0, own0 := d.sys, d.own;
    var missing;
    ghost var at;
    missing, verdict, at := Judge(d, readers, rid, rows, i);
    if missing { return MissingAdapter, verdict; }
    ghost var s1, own1 := d.sys, d.own;
    var done := d.WriteVerdict(rid, i, Receipt(verdict, rows[i].attempt, None), at);
    outcome := if done then Executed else TransitionError;
    if d.Others() == old(d.Others()) && Unheld(s0, rows, i) {
      UnheldRow(s0, s1, rows, i);
      VerdictIsPossible(s1, rows, i, Receipt(verdict, rows[i].attempt, None));
      if done { VerdictIsWritten(s0, s1, d.sys, rid, at, rows, i, verdict); }
    }
    if done {
      StepInvestigates(own0, own1, RecordVerdict, rid, 0);
    } else {
      RulingIsDenied(d, rid, at, rows, i);
    }
  }

  /** The part of a round that precedes its receipt. */
  method Judge(d: Deployment, readers: set<string>, rid: nat, rows: seq<OpRow>, i: nat)
    returns (missing: bool, verdict: ApplyStatus, ghost at: Reconciler)
    requires d.ReconcilerAt(rid, Scanning(rows, i)) && i < |rows| && NeedsRuling(rows[i])
    modifies d, d.store
    ensures old(d.trace) <= d.trace && d.Others() >= old(d.Others()) && d.clock >= old(d.clock)
    ensures missing <==> MissesReader(rows[i], readers)
    ensures missing ==> d.own == old(d.own) && d.sys == old(d.sys)
    ensures !missing ==> VerdictFits(rows[i], verdict)
    ensures d.ReconcilerAt(rid, at)
    ensures at == if missing || rows[i].status == Issued then Scanning(rows, i) else Observed(rows, i, verdict)
    ensures Investigated(old(d.own), d.own, rid, 0)
    ensures d.Others() == old(d.Others()) ==> d.sys.row == old(d.sys.row)
  {
    hide Run, Apply, Deployment.Valid, Investigated;
    ghost var s0, own0 := d.sys, d.own;
    NothingInvestigated(own0, rid);
    missing, verdict, at := false, RetryableNotApplied, Scanning(rows, i);
    if rows[i].status != Issued {
      if rows[i].payload.kind !in readers {
        missing := true;
        return;
      }
      var observed := d.ReadBackend(rid, rows, i);
      StepInvestigates(own0, own0, Observe(observed), rid, 0);
      verdict := if observed == RetryableNotApplied && rows[i].attempt > 0 then Unknown else observed;
      at := Observed(rows, i, verdict);
      if d.Others() == old(d.Others()) { InspectionKeepsRow(s0, d.sys, rid, Observe(observed)); }
    }
  }

  /** The call went on by steps of its own, and wrote so many verdicts. */
  ghost predicate Investigated(before: seq<Step>, after: seq<Step>, rid: nat, rulings: nat) {
    && before <= after && Rulings(after) == Rulings(before) + rulings
    && forall k | |before| <= k < |after| :: after[k].Reconcile? && after[k].rid == rid && !after[k].inspection.Quit?
  }

  lemma NothingInvestigated(steps: seq<Step>, rid: nat)
    ensures Investigated(steps, steps, rid, 0)
  {
  }

  lemma StepInvestigates(before: seq<Step>, mid: seq<Step>, inspection: Inspection, rid: nat, rulings: nat)
    requires Investigated(before, mid, rid, rulings) && !inspection.Quit?
    ensures Investigated(before, mid + [Reconcile(rid, inspection)], rid,
                         rulings + if inspection.RecordVerdict? then 1 else 0)
  {
    OneMoreStep(mid, Reconcile(rid, inspection));
  }

  lemma InvestigationsAddUp(before: seq<Step>, mid: seq<Step>, after: seq<Step>, rid: nat, first: nat, second: nat)
    requires Investigated(before, mid, rid, first) && Investigated(mid, after, rid, second)
    ensures Investigated(before, after, rid, first + second)
  {
    forall k | |before| <= k < |after|
      ensures after[k].Reconcile? && after[k].rid == rid && !after[k].inspection.Quit?
    {
      if k < |mid| { assert after[k] == mid[k]; }
    }
  }

  lemma UnheldRow(s: Sys, s': Sys, rows: seq<OpRow>, i: nat)
    requires Unheld(s, rows, i) && s'.row == s.row
    ensures Unheld(s', rows, i)
  {
  }

  lemma VerdictIsWritten(
    s: Sys, s1: Sys, s': Sys, rid: nat, r: Reconciler, rows: seq<OpRow>, i: nat, verdict: ApplyStatus)
    requires Unheld(s1, rows, i) && s1.row == s.row && i < |rows| && ReconcilerOf(s1, rid) == Some(r)
    requires r == Scanning(rows, i) ==> verdict == RetryableNotApplied
    requires r == Scanning(rows, i) || r == Observed(rows, i, verdict)
    requires Apply(s1, Reconcile(rid, RecordVerdict)) == Some(s')
    ensures Unheld(s', rows, i + 1) && Wrote(s.row.ops, s'.row.ops, i, verdict)
  {
    hide Apply;
    VerdictKeepsUnheld(s1, s', rid, r, rows, i, verdict);
  }

  lemma RulingIsDenied(d: Deployment, rid: nat, r: Reconciler, rows: seq<OpRow>, i: nat)
    requires d.ReconcilerAt(rid, r) && i < |rows|
    requires r == Scanning(rows, i) || (r.Observed? && r == Observed(rows, i, r.verdict))
    requires RecordReconciliation(
               d.sys.row, i, VerdictReceipt(rows[i], if r.Observed? then r.verdict else RetryableNotApplied)).Failure?
    ensures RulingDenied(d.sys, rid, rows, i)
  {
    hide Run, Init, WorkerMove, RecordReconciliation;
  }

  /** Where an undisturbed scan is that began in state s. */
  ghost predicate OnScan(s: Sys, s': Sys, rows: seq<OpRow>, i: nat, log: seq<Entry>) {
    rows == s.row.ops && Unheld(s', rows, i) && Settled(rows, s'.row.ops, log)
  }

  lemma ScanStarts(s: Sys, s': Sys, rows: seq<OpRow>)
    requires rows == s.row.ops == s'.row.ops && Unheld(s', rows, 0)
    ensures OnScan(s, s', rows, 0, [])
  {
    NothingSettled(rows);
  }

  lemma SkipStaysOnScan(s: Sys, s1: Sys, s': Sys, rid: nat, rows: seq<OpRow>, i: nat, log: seq<Entry>)
    requires OnScan(s, s1, rows, i, log) && Apply(s1, Reconcile(rid, SkipRow)) == Some(s')
    ensures OnScan(s, s', rows, i + 1, log)
  {
    hide Apply;
    InspectionKeepsRow(s1, s', rid, SkipRow);
  }

  lemma RulingStaysOnScan(s: Sys, s1: Sys, s': Sys, rows: seq<OpRow>, i: nat, log: seq<Entry>, verdict: ApplyStatus)
    requires OnScan(s, s1, rows, i, log) && !Logged(log, i)
    requires Unheld(s', rows, i + 1) && Wrote(s1.row.ops, s'.row.ops, i, verdict)
    ensures OnScan(s, s', rows, i + 1, log + [Entry(i, verdict)])
  {
    hide Settled, Wrote, Logged, Unheld;
    ExtendSettled(rows, s1.row.ops, s'.row.ops, log, i, verdict);
  }

  lemma ScanIsOpen(s: Sys, s': Sys, rows: seq<OpRow>, i: nat, log: seq<Entry>)
    requires OnScan(s, s', rows, i, log)
    ensures rows == s.row.ops && Unheld(s', rows, i) && Settled(rows, s'.row.ops, log)
  {
  }

  /** Row `i` is the first that has no reader, and the rows before it were ruled on. */
  ghost predicate StoppedAtReader(rows: seq<OpRow>, readers: set<string>, log: seq<Entry>, i: nat) {
    i < |rows| && MissesReader(rows[i], readers) && HasReaders(rows, readers, i) && AllRuled(log, rows, i)
  }

  /** The loop over the operations: where it ended is `i`. */
  method ScanRows(d: Deployment, readers: set<string>, rid: nat, rows: seq<OpRow>)
    returns (outcome: Outcome, log: seq<Entry>, i: nat)
    requires d.ReconcilerAt(rid, Scanning(rows, 0))
    modifies d, d.store
    ensures d.Valid() && old(d.trace) <= d.trace && d.Others() >= old(d.Others()) && d.clock >= old(d.clock)
    ensures outcome in {MissingAdapter, TransitionError, Executed}
    ensures RulesInOrder(log, rows) && Investigated(old(d.own), d.own, rid, |log|)
    ensures outcome == Executed ==>
              && d.ReconcilerAt(rid, Scanning(rows, |rows|)) && AllRuled(log, rows, |rows|)
              && HasReaders(rows, readers, |rows|)
    ensures outcome == MissingAdapter ==>
              d.ReconcilerAt(rid, Scanning(rows, i)) && StoppedAtReader(rows, readers, log, i)
    ensures outcome == TransitionError ==> RulingDenied(d.sys, rid, rows, i)
    ensures d.Others() == old(d.Others()) && Unheld(old(d.sys), rows, 0) && rows == old(d.sys.row.ops) ==>
              outcome != TransitionError && Settled(rows, d.sys.row.ops, log)
  {
    hide Run, Apply, Deployment.Valid, Unheld, Wrote, Settled, RulesInOrder, AllRuled, Investigated, RulingDenied,
         OnScan, ScannedTo, MissesReader, HasReaders, Logged, Deployment.ReconcilerAt;
    ghost var s0, own0, others := d.sys, d.own, d.Others();
    ghost var calm := Unheld(s0, rows, 0) && rows == s0.row.ops;
    if calm { ScanStarts(s0, s0, rows); }
    log, i := [], 0;
    NothingScanned(rows, readers);
    NothingInvestigated(own0, rid);
    while i < |rows|
      invariant i <= |rows| && d.ReconcilerAt(rid, Scanning(rows, i))
      invariant old(d.trace) <= d.trace && d.Others() >= others && d.clock >= old(d.clock)
      invariant ScannedTo(log, rows, readers, i) && Investigated(own0, d.own, rid, |log|)
      invariant calm && d.Others() == others ==> OnScan(s0, d.sys, rows, i, log)
    {
      ghost var s1, own1 := d.sys, d.own;
      if calm && d.Others() == others { ScanIsOpen(s0, s1, rows, i, log); }
      if NeedsRuling(rows[i]) {
        var done, verdict := RuleOn(d, readers, rid, rows, i);
        InvestigationsAddUp(own0, own1, d.own, rid, |log|, if done == Executed then 1 else 0);
        if done != Executed {
          ScanTells(log, rows, readers, i);
          outcome := done;
          return;
        }
        ScanRules(log, rows, readers, i, verdict);
        if calm && d.Others() == others { RulingStaysOnScan(s0, s1, d.sys, rows, i, log, verdict); }
        log := log + [Entry(i, verdict)];
      } else {
        ScanSkips(log, rows, readers, i);
        d.SkipRowNow(rid, rows, i);
        StepInvestigates(own0, own1, SkipRow, rid, |log|);
        if calm && d.Others() == others { SkipStaysOnScan(s0, s1, d.sys, rid, rows, i, log); }
      }
      i := i + 1;
    }
    ScanTells(log, rows, readers, i);
    StillValid(d, rid, Scanning(rows, i));
    if calm && d.Others() == others { ScanIsOpen(s0, d.sys, rows, i, log); }
    outcome := Executed;
  }

  /** The log of a scan that has reached row `i`, and found the readers that it needed. */
  ghost predicate ScannedTo(log: seq<Entry>, rows: seq<OpRow>, readers: set<string>, i: nat) {
    RuledUpTo(log, rows, i) && HasReaders(rows, readers, i)
  }

  lemma NothingScanned(rows: seq<OpRow>, readers: set<string>)
    ensures ScannedTo([], rows, readers, 0)
  {
  }

  lemma ScanRules(log: seq<Entry>, rows: seq<OpRow>, readers: set<string>, i: nat, verdict: ApplyStatus)
    requires ScannedTo(log, rows, readers, i) && i < |rows| && NeedsRuling(rows[i]) && VerdictFits(rows[i], verdict)
    requires !MissesReader(rows[i], readers)
    ensures ScannedTo(log + [Entry(i, verdict)], rows, readers, i + 1) && !Logged(log, i)
  {
    ExtendRulings(log, rows, i, verdict);
    hide RuledUpTo, MissesReader, Logged;
  }

  lemma ScanSkips(log: seq<Entry>, rows: seq<OpRow>, readers: set<string>, i: nat)
    requires ScannedTo(log, rows, readers, i) && i < |rows| && !NeedsRuling(rows[i])
    ensures ScannedTo(log, rows, readers, i + 1)
  {
    SkippedRuling(log, rows, i);
  }

  lemma ScanTells(log: seq<Entry>, rows: seq<OpRow>, readers: set<string>, i: nat)
    requires ScannedTo(log, rows, readers, i)
    ensures RulesInOrder(log, rows) && AllRuled(log, rows, i) && HasReaders(rows, readers, i)
  {
  }

  lemma StillValid(d: Deployment, rid: nat, r: Reconciler)
    requires d.ReconcilerAt(rid, r)
    ensures d.Valid()
  {
  }

  /** `WriteReconciler.reconcile`: it fences the plan, reads the status and then the operations, `rows`, and
      rules on each that is open, reading the backend for those that were dispatched. */
  method ReconcilePlan(d: Deployment, readers: set<string>)
    returns (outcome: Outcome, rid: nat, rows: seq<OpRow>, log: seq<Entry>, i: nat)
    requires d.Valid()
    modifies d, d.store
    ensures d.Valid() && old(d.trace) <= d.trace && d.Others() >= old(d.Others()) && d.clock >= old(d.clock)
    ensures outcome in {MissingAdapter, NotClaimed, TransitionError, Executed} && old(d.nextToken) <= rid
    ensures RulesInOrder(log, rows) && Investigated(old(d.own), d.own, rid, |log|)
    ensures outcome == NotClaimed ==>
              log == [] && d.own == Opened(old(d.own), rid) && d.ReconcilerAt(rid, Finished)
    ensures outcome == Executed ==>
              && d.ReconcilerAt(rid, Scanning(rows, |rows|)) && AllRuled(log, rows, |rows|)
              && HasReaders(rows, readers, |rows|)
    ensures outcome == MissingAdapter ==>
              d.ReconcilerAt(rid, Scanning(rows, i)) && StoppedAtReader(rows, readers, log, i)
    ensures outcome == TransitionError ==>
              || RulingDenied(d.sys, rid, rows, i)
              || (log == [] && d.own == old(d.own) && LeaseLive(d.sys.row, old(d.clock)))
    ensures outcome != NotClaimed && d.own != old(d.own) ==>
              && Opened(old(d.own), rid) + [Reconcile(rid, ReadSnapshot)] <= d.own
              && ReadBy(d.start, d.trace, |old(d.trace)|, Reconcile(rid, ReadSnapshot), rows)
    ensures d.Others() == old(d.Others()) ==>
              if LeaseLive(old(d.sys.row), old(d.clock)) then outcome == TransitionError && d.sys == old(d.sys)
              else if Reconciled(old(d.sys.row.status)) then
                && outcome in {MissingAdapter, Executed} && rows == old(d.sys.row.ops)
                && Settled(rows, d.sys.row.ops, log)
              else outcome == NotClaimed && d.sys.row == old(d.sys.row)
  {
    hide Run, Apply, Deployment.Valid, Unheld, Settled, RulesInOrder, AllRuled, Investigated, RulingDenied, ReadBy,
         MissesReader, HasReaders, StoppedAtReader, Reconciled;
    ghost var s0, own0, from := d.sys, d.own, |d.trace|;
    rows, log, i := [], [], 0;
    NoRulings(rows);
    RulingsSoFar(log, rows, 0);
    rid := d.FreshToken();
    NothingInvestigated(own0, rid);
    var record := d.FindRecord();
    if record.None? {
      outcome := NotFound;
      return;
    }
    outcome, rows := OpenScan(d, rid);
    NoRulings(rows);
    RulingsSoFar(log, rows, 0);
    OpeningInvestigates(own0, rid);
    if outcome == Executed {
      ghost var own1, trace1 := d.own, d.trace;
      outcome, log, i := ScanRows(d, readers, rid, rows);
      InvestigationsAddUp(own0, own1, d.own, rid, 0, |log|);
      InvestigationGrows(own1, d.own, rid, |log|);
      ReadStays(d.start, trace1, d.trace, from, from, Reconcile(rid, ReadSnapshot), rows);
    }
  }

  lemma InvestigationGrows(before: seq<Step>, after: seq<Step>, rid: nat, rulings: nat)
    requires Investigated(before, after, rid, rulings)
    ensures before <= after
  {
  }

  lemma OpeningInvestigates(before: seq<Step>, rid: nat)
    ensures Investigated(before, Opened(before, rid), rid, 0)
    ensures Investigated(before, Opened(before, rid) + [Reconcile(rid, ReadSnapshot)], rid, 0)
  {
    hide Investigated;
    NothingInvestigated(before, rid);
    StepInvestigates(before, before, Fence, rid, 0);
    StepInvestigates(before, before + [Reconcile(rid, Fence)], CheckStatus, rid, 0);
    StepInvestigates(before, Opened(before, rid), ReadSnapshot, rid, 0);
  }
}
