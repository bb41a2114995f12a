/** Why reads of another graph must be excluded: they make a delete APPLIED that never happened. */
module EdgeDeleteFailures {
  import opened Wrappers
  import opened WritePlans
  import opened PlanRows
  import opened WriteProtocol
  import opened ProtocolRaces
  import opened ProtocolFailures
  import opened EdgeDeletes

  lemma PlayMore(start: World, bound: seq<Binding>, events: seq<Event>, w: World, event: Event, w': World)
    requires Play(start, bound, events) == Some(w) && Advance(w, bound, event) == Some(w')
    ensures Play(start, bound, events + [event]) == Some(w')
  {
    hide Advance;
    assert (events + [event])[..|events|] == events;
  }

  /** A step that involves no backend, and is not the call of an adapter. */
  lemma PlayStep(start: World, bound: seq<Binding>, events: seq<Event>, w: World, step: Step, s: Sys)
    returns (events': seq<Event>)
    requires Play(start, bound, events) == Some(w) && Apply(w.sys, step) == Some(s)
    requires !TouchesBackend(step) && !(step.Work? && step.action.CallAdapter?)
    ensures Play(start, bound, events') == Some(w.(sys := s))
  {
    hide Apply;
    PlayMore(start, bound, events, w, Protocol(step), w.(sys := s));
    events' := events + [Protocol(step)];
  }

  /** Operation 0 has been dispatched by a call that died, and reconciler 1 is about to read its edge. */
  predicate AboutToRead(start: Sys, s: Sys) {
    && s.row.leaseOwner == None && |s.row.ops| == |start.row.ops| > 0 && s.row.ops[0].status == Executing
    && (forall i | 1 <= i < |s.row.ops| :: s.row.ops[i].status == Issued)
    && 1 in s.reconcilers && s.reconcilers[1] == Scanning(s.row.ops, 0)
  }

  function Read0(start: Sys): Sys {
    Put(Won(start), 1, Looping(Issued, Statuses(start.row.ops), 0))
  }

  /** Call 1 has claimed operation 0. */
  function Claimed0(start: Sys): Sys
    requires |start.row.ops| > 0
  {
    var b := Read0(start);
    Put(b.(row := Dispatched(b.row, 0, b.clock)), 1,
        Dispatching(Issued, Statuses(start.row.ops), 0, 7, b.row.ops[0].attempt + 1))
  }

  lemma ClaimSteps(start: Sys)
    requires Init(start)
    ensures Apply(start, Work(1, ConfirmClaim(start.clock, 10))) == Some(Won(start))
    ensures Apply(Won(start), Work(1, ReadRecord)) == Some(Read0(start))
    ensures Apply(Read0(start), Work(1, ClaimOp(7, 10))) == Some(Claimed0(start))
  {
    ClaimIssued(start, 1);
    StartIsUnreached(start);
    hide Apply, Init;
    ReadTheRecord(Won(start), 1, Issued);
    ClaimTheOperation(Read0(start), 1, Issued, Statuses(start.row.ops), 0);
  }

  lemma ClaimedRow(start: Sys)
    requires Init(start)
    ensures var s := Claimed0(start);
            && s.row.leaseOwner.Some? && s.row.leaseExpires == Some(s.clock + 10) && s.row.status == Executing
            && |s.row.ops| == |start.row.ops| > 0 && s.row.ops[0].status == Executing && s.reconcilers == map[]
            && forall i | 1 <= i < |s.row.ops| :: s.row.ops[i].status == Issued
  {
    StartIsUnreached(start);
  }

  lemma UntilClaimed(start: World, bound: seq<Binding>) returns (events: seq<Event>)
    requires Init(start.sys)
    ensures |start.sys.row.ops| > 0 && Play(start, bound, events) == Some(start.(sys := Claimed0(start.sys)))
  {
    ClaimSteps(start.sys);
    ClaimedRow(start.sys);
    var sys := start.sys;
    hide Apply, Play, Init, Won, Read0, Claimed0;
    PlayNothing(start, bound);
    events := PlayStep(start, bound, [], start, Work(1, ConfirmClaim(sys.clock, 10)), Won(sys));
    events := PlayStep(start, bound, events, start.(sys := Won(sys)), Work(1, ReadRecord), Read0(sys));
    events := PlayStep(start, bound, events, start.(sys := Read0(sys)), Work(1, ClaimOp(7, 10)), Claimed0(sys));
  }

  lemma PlayNothing(w: World, bound: seq<Binding>)
    ensures Play(w, bound, []) == Some(w)
  {
  }

  /** The states on the way from the claimed operation to the reconciler's first row. */
  lemma ReadSteps(start: Sys) returns (b: Sys, c: Sys, d: Sys, s: Sys)
    requires Init(start)
    ensures |start.row.ops| > 0 && Apply(Claimed0(start), Tick(10)) == Some(b)
             && Apply(b, Reconcile(1, Fence)) == Some(c)
    ensures Apply(c, Reconcile(1, CheckStatus)) == Some(d) && Apply(d, Reconcile(1, ReadSnapshot)) == Some(s)
    ensures AboutToRead(start, s)
  {
    ClaimedRow(start);
    hide Apply, Init, Claimed0;
    var a := Claimed0(start);
    Ticking(a, 10);
    b := a.(clock := a.clock + 10);
    FenceSteps(b, 1);
    var fenced := b.(row := Fenced(b.row));
    c, d := PutReader(fenced, 1, Fencing(b.row.status)), PutReader(fenced, 1, Cleared);
    s := PutReader(fenced, 1, Scanning(b.row.ops, 0));
  }

  lemma UntilRead(start: World, bound: seq<Binding>) returns (events: seq<Event>, s: Sys)
    requires Init(start.sys)
    ensures Play(start, bound, events) == Some(start.(sys := s)) && AboutToRead(start.sys, s)
  {
    hide Apply, Play, Init, Claimed0, AboutToRead;
    var b, c, d;
    b, c, d, s := ReadSteps(start.sys);
    events := UntilClaimed(start, bound);
    events := PlayStep(start, bound, events, start.(sys := Claimed0(start.sys)), Tick(10), b);
    events := PlayStep(start, bound, events, start.(sys := b), Reconcile(1, Fence), c);
    events := PlayStep(start, bound, events, start.(sys := c), Reconcile(1, CheckStatus), d);
    events := PlayStep(start, bound, events, start.(sys := d), Reconcile(1, ReadSnapshot), s);
  }

  lemma Ticking(s: Sys, elapsed: nat)
    ensures Apply(s, Tick(elapsed)) == Some(s.(clock := s.clock + elapsed))
  {
  }

  /** The reconciler sees an empty graph, and calls the delete APPLIED. */
  lemma ReadElsewhere(w: World, bound: seq<Binding>) returns (w': World)
    requires |bound| > 0 && w.sys.row.leaseOwner == None && |w.sys.row.ops| > 0 && w.sys.row.ops[0].status == Executing
    requires 1 in w.sys.reconcilers && w.sys.reconcilers[1] == Scanning(w.sys.row.ops, 0)
    ensures Advance(w, bound, Read(1, Some(map[]))) == Some(w') && w'.sys.row == w.sys.row
    ensures w'.backend == w.backend && w'.adapters == w.adapters
    ensures 1 in w'.sys.reconcilers && w'.sys.reconcilers[1] == Observed(w.sys.row.ops, 0, PlanStatus.Applied)
  {
    hide WorkerMove, ReadStatus;
    ReaderTellsTheTruth(bound[0], map[]);
    var r := Observed(w.sys.row.ops, 0, PlanStatus.Applied);
    w' := w.(sys := PutReader(w.sys, 1, r));
    assert Apply(w.sys, Reconcile(1, Observe(PlanStatus.Applied))) == Some(w'.sys);
  }

  lemma RecordApplied(s: Sys, rows: seq<OpRow>) returns (s': Sys)
    requires s.row.leaseOwner == None && |s.row.ops| > 0 && s.row.ops[0].status == Executing && |rows| > 0
    requires 1 in s.reconcilers && s.reconcilers[1] == Observed(rows, 0, PlanStatus.Applied)
    ensures Apply(s, Reconcile(1, RecordVerdict)) == Some(s') && |s'.row.ops| == |s.row.ops|
    ensures s'.row.ops[0].status == Applied && s'.row.ops[1..] == s.row.ops[1..]
    ensures |s.row.ops| == 1 ==> s'.row.status == Applied
  {
    hide WorkerMove, PersistedAggregate;
    var receipt := VerdictReceipt(rows[0], PlanStatus.Applied);
    var row' := RecordReconciliation(s.row, 0, receipt).value;
    s' := PutReader(s.(row := row'), 1, Scanning(rows, 1));
    assert Apply(s, Reconcile(1, RecordVerdict)) == Some(s');
    if |s.row.ops| == 1 { OnlyOneApplied(WithOpStatus(s.row, 0, Applied)); }
  }

  lemma OnlyOneApplied(statuses: seq<PlanStatus>)
    requires statuses == [Applied]
    ensures PersistedAggregate(statuses) == Applied
  {
    assert statuses[0] in statuses;
  }

  /** The first delete is stored as APPLIED, and as the only one it makes the plan APPLIED, although no
      request was sent and the plan's graph is as it was. */
  predicate Faked(start: World, w: World) {
    && w.backend == start.backend && w.adapters == map[]
    && |w.sys.row.ops| > 0 && w.sys.row.ops[0].status == Applied
    && (|w.sys.row.ops| == 1 ==> w.sys.row.status == Applied)
  }

  lemma FakeTheDelete(start: World, bound: seq<Binding>) returns (events: seq<Event>, w: World)
    requires Init(start.sys) && start.adapters == map[] && |bound| == |start.sys.row.ops|
    ensures Play(start, bound, events) == Some(w) && Faked(start, w)
  {
    var before, s := UntilRead(start, bound);
    hide Init, Apply, Play, Advance, WorkerMove, ReconcilerMove;
    var a := start.(sys := s);
    var b := ReadElsewhere(a, bound);
    PlayMore(start, bound, before, a, Read(1, Some(map[])), b);
    var s' := RecordApplied(b.sys, s.row.ops);
    events := PlayStep(start, bound, before + [Read(1, Some(map[]))], b, Reconcile(1, RecordVerdict), s');
    w := b.(sys := s');
  }

  /** The condition on reads is needed: every edge-delete plan has a run, with one read of an empty graph,
      that fakes its first delete. */
  lemma ReadElsewhereFakesTheDelete(start: World, bound: seq<Binding>)
    requires Init(start.sys) && start.adapters == map[] && |bound| == |start.sys.row.ops|
    ensures exists events, w :: Play(start, bound, events) == Some(w) && Faked(start, w)
  {
    hide *;
    var events, w := FakeTheDelete(start, bound);
  }
}
