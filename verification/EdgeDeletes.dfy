/** Edge-delete plans end to end: the adapter and the reader of graph_write_adapter.py against a
    backend where a request that was sent may commit at any later time. */
module EdgeDeletes {
  import opened Wrappers
  import opened WritePlans
  import opened PlanRows
  import opened WriteProtocol
  import opened ProtocolSafety

  type State = map<string, PyValue>

  predicate ReportsAbsent(observed: State) {
    "exists" in observed && observed["exists"] == PyBool(false)
  }

  /** `reconcile_operation_state`. */
  function ReconcileOperationState(kind: string, expected: State, desired: State, observed: State): ApplyStatus {
    if observed == desired then Applied
    else if observed == expected then RetryableNotApplied
    else if "DELETE_" <= kind && ReportsAbsent(observed) then Applied
    else Conflict
  }

  /** The edge that an operation is bound to. */
  datatype Binding = Binding(id: string, edgeLabel: string)

  function ExpectedState(b: Binding): State {
    map["exists" := PyBool(true), "element_type" := PyStr("edge"), "id" := PyStr(b.id), "label" := PyStr(b.edgeLabel)]
  }

  const DESIRED_STATE: State := map["exists" := PyBool(false)]

  /** The graph's edges with their labels, and the delete requests that may still commit. */
  datatype Backend = Backend(edges: map<string, string>, inflight: set<string>)

  /** `_read_delete_target`, for an id that names at most one edge. */
  function ReadDeleteTarget(b: Binding, edges: map<string, string>): State {
    if b.id !in edges then
      map["exists" := PyBool(false), "element_type" := PyStr("edge"), "id" := PyStr(b.id),
          "label" := PyStr(b.edgeLabel)]
    else
      map["exists" := PyBool(true), "element_type" := PyStr("edge"), "id" := PyStr(b.id), "label" := PyStr(edges[b.id])]
  }

  function ReadStatus(b: Binding, edges: map<string, string>): ApplyStatus {
    ReconcileOperationState("DELETE_EDGE", ExpectedState(b), DESIRED_STATE, ReadDeleteTarget(b, edges))
  }

  /** A reader's observation classifies the edge by what the backend holds, and nothing else. */
  lemma ReaderTellsTheTruth(b: Binding, edges: map<string, string>)
    ensures var observed := ReadDeleteTarget(b, edges);
            && (ReportsAbsent(observed) <==> b.id !in edges)
            && (observed == ExpectedState(b) <==> b.id in edges && edges[b.id] == b.edgeLabel)
            && ReadStatus(b, edges)
               == if b.id !in edges then PlanStatus.Applied
                  else if edges[b.id] == b.edgeLabel then PlanStatus.RetryableNotApplied
                  else PlanStatus.Conflict
  {
    var observed := ReadDeleteTarget(b, edges);
    assert "id" in observed && "id" !in DESIRED_STATE;
    assert observed["exists"] == PyBool(b.id in edges);
    if b.id in edges {
      assert observed["label"] == PyStr(edges[b.id]) && ExpectedState(b)["label"] == PyStr(b.edgeLabel);
      if edges[b.id] == b.edgeLabel { assert observed == ExpectedState(b); }
    } else {
      assert ExpectedState(b)["exists"] == PyBool(true);
    }
  }

  /** `_post_write_receipt`: what to report when the state after the write is not the one wanted. */
  function PostWriteStatus(isCreate: bool, reportedSuccess: bool, ambiguous: bool, observed: ApplyStatus): ApplyStatus {
    if observed == Conflict && isCreate && reportedSuccess then Unknown
    else if observed == Conflict then Conflict
    else if ambiguous then Unknown
    else Rejected
  }

  // ---- The adapter, the reader and the backend, step by step ----------------

  datatype Adapter = Started | Sent | Answered(result: ApplyStatus)

  datatype World = World(sys: Sys, backend: Backend, adapters: map<Token, Adapter>)

  datatype Event =
    | Protocol(step: Step)                       // any step that involves no backend
    | Mismatch(owner: Token)                     // the adapter finds itself configured for another graph
    | ReadBefore(owner: Token)                   // the adapter's first read, and the delete it may send
    | ReadAfter(owner: Token, reportedSuccess: bool, ambiguous: bool)
    | Raise(owner: Token)                        // a failed read or request
    | Return(owner: Token)
    | Commit(id: string)                         // a sent delete takes effect
    | Outside(edges: map<string, string>)        // other clients, who never re-create an edge id
    | Read(rid: nat, elsewhere: Option<map<string, string>>) // the reconciler's read, maybe of another graph

  predicate TouchesBackend(step: Step) {
    (step.Work? && step.action.AdapterReturns?) || (step.Reconcile? && step.inspection.Observe?)
  }

  predicate InCall(w: World, bound: seq<Binding>, owner: Token) {
    && owner in w.sys.workers && w.sys.workers[owner].Calling? && owner in w.adapters
    && w.sys.workers[owner].next < |bound|
  }

  function BoundTo(w: World, bound: seq<Binding>, owner: Token): Binding
    requires InCall(w, bound, owner)
  {
    bound[w.sys.workers[owner].next]
  }

  predicate MayRead(w: World, bound: seq<Binding>, rid: nat) {
    && rid in w.sys.reconcilers && w.sys.reconcilers[rid].Scanning? && w.sys.reconcilers[rid].next < |bound|
  }

  function ReadFor(w: World, bound: seq<Binding>, rid: nat): Binding
    requires MayRead(w, bound, rid)
  {
    bound[w.sys.reconcilers[rid].next]
  }

  /** The readers do not check, as the adapters do, that they are configured for the plan's graph. */
  function SeenBy(w: World, elsewhere: Option<map<string, string>>): map<string, string> {
    if elsewhere.Some? then elsewhere.value else w.backend.edges
  }

  function Advance(w: World, bound: seq<Binding>, event: Event): Option<World> {
    match event
    case Protocol(step) =>
      if TouchesBackend(step) || Apply(w.sys, step).None? then None
      else
        Some(w.(sys := Apply(w.sys, step).value,
                adapters := if step.Work? && step.action.CallAdapter? then w.adapters[step.owner := Started]
                            else w.adapters))
    case Mismatch(owner) =>
      if !InCall(w, bound, owner) || !w.adapters[owner].Started? then None
      else Some(w.(adapters := w.adapters[owner := Answered(Rejected)]))
    case ReadBefore(owner) =>
      if !InCall(w, bound, owner) || !w.adapters[owner].Started? then None
      else
        var b := BoundTo(w, bound, owner);
        var before := ReadDeleteTarget(b, w.backend.edges);
        if ReportsAbsent(before) then Some(w.(adapters := w.adapters[owner := Answered(AlreadyApplied)]))
        else if before != ExpectedState(b) then Some(w.(adapters := w.adapters[owner := Answered(Conflict)]))
        else Some(w.(adapters := w.adapters[owner := Sent],
                     backend := w.backend.(inflight := w.backend.inflight + {b.id})))
    case ReadAfter(owner, reportedSuccess, ambiguous) =>
      if !InCall(w, bound, owner) || !w.adapters[owner].Sent? then None
      else
        var after := ReadDeleteTarget(BoundTo(w, bound, owner), w.backend.edges);
        Some(w.(adapters := w.adapters[owner := Answered(
                  if ReportsAbsent(after) then Applied
                  else PostWriteStatus(false, reportedSuccess, ambiguous, Conflict))]))
    case Raise(owner) =>
      if !InCall(w, bound, owner) || w.adapters[owner].Answered? then None
      else Some(w.(adapters := w.adapters[owner := Answered(Unknown)]))
    case Return(owner) =>
      if !InCall(w, bound, owner) || !w.adapters[owner].Answered? then None
      else
        var sys := Apply(w.sys, Work(owner, AdapterReturns(w.adapters[owner].result)));
        if sys.None? then None else Some(w.(sys := sys.value))
    case Commit(id) =>
      if id !in w.backend.inflight then None
      else Some(w.(backend := Backend(w.backend.edges - {id}, w.backend.inflight - {id})))
    case Outside(edges) =>
      if forall i | 0 <= i < |bound| :: bound[i].id in edges ==> bound[i].id in w.backend.edges then
        Some(w.(backend := w.backend.(edges := edges)))
      else None
    case Read(rid, elsewhere) =>
      if !MayRead(w, bound, rid) then None
      else
        var status := ReadStatus(ReadFor(w, bound, rid), SeenBy(w, elsewhere));
        var sys := Apply(w.sys, Reconcile(rid, Observe(status)));
        if sys.None? then None else Some(w.(sys := sys.value))
  }

  function Play(w: World, bound: seq<Binding>, events: seq<Event>): Option<World> {
    if events == [] then Some(w)
    else
      var before := Play(w, bound, events[..|events| - 1]);
      if before.None? then None else Advance(before.value, bound, events[|events| - 1])
  }

  // ---- Evidence ---------------------------------------------------------------

  predicate Absent(edges: map<string, string>, bound: seq<Binding>, i: nat) {
    i < |bound| ==> bound[i].id !in edges
  }

  /** What a worker or reconciler is about to write as a success was seen in the backend. */
  predicate WorkerEvidence(v: Worker, adapter: Option<Adapter>, edges: map<string, string>, bound: seq<Binding>) {
    && (v.Returned? && IsSuccess(v.result) ==> Absent(edges, bound, v.next))
    && (v.Calling? && adapter.Some? && adapter.value.Answered? && IsSuccess(adapter.value.result) ==>
          Absent(edges, bound, v.next))
  }

  predicate ReconcilerEvidence(r: Reconciler, edges: map<string, string>, bound: seq<Binding>) {
    r.Observed? && IsSuccess(r.verdict) ==> Absent(edges, bound, r.next)
  }

  predicate RowEvidence(row: PlanRow, edges: map<string, string>, bound: seq<Binding>) {
    forall i | 0 <= i < |row.ops| && IsSuccess(row.ops[i].status) :: Absent(edges, bound, i)
  }

  function AdapterOf(w: World, owner: Token): Option<Adapter> {
    if owner in w.adapters then Some(w.adapters[owner]) else None
  }

  ghost predicate Evident(w: World, bound: seq<Binding>) {
    && Safe(w.sys)
    && |bound| == |w.sys.row.ops|
    && RowEvidence(w.sys.row, w.backend.edges, bound)
    && (forall o | o in w.sys.workers :: WorkerEvidence(w.sys.workers[o], AdapterOf(w, o), w.backend.edges, bound))
    && (forall r | r in w.sys.reconcilers :: ReconcilerEvidence(w.sys.reconcilers[r], w.backend.edges, bound))
  }

  lemma WorkerMoveKeepsEvidence(
    row: PlanRow, clock: int, owner: Token, v: Option<Worker>, action: Action,
    adapter: Option<Adapter>, edges: map<string, string>, bound: seq<Binding>)
    requires RowEvidence(row, edges, bound) && (v.Some? ==> WorkerEvidence(v.value, adapter, edges, bound))
    requires !action.AdapterReturns? && WorkerMove(row, clock, owner, v, action).Some?
    ensures var (row', v') := WorkerMove(row, clock, owner, v, action).value;
            && RowEvidence(row', edges, bound)
            && WorkerEvidence(v', if action.CallAdapter? then Some(Started) else adapter, edges, bound)
  {
  }

  lemma ReconcilerMoveKeepsEvidence(
    row: PlanRow, clock: int, r: Option<Reconciler>, inspection: Inspection,
    edges: map<string, string>, bound: seq<Binding>)
    requires RowEvidence(row, edges, bound) && (r.Some? ==> ReconcilerEvidence(r.value, edges, bound))
    requires !inspection.Observe? && ReconcilerMove(row, clock, r, inspection).Some?
    ensures var (row', r') := ReconcilerMove(row, clock, r, inspection).value;
            RowEvidence(row', edges, bound) && ReconcilerEvidence(r', edges, bound)
  {
  }

  lemma ProtocolKeepsEvidence(w: World, bound: seq<Binding>, step: Step, w': World)
    requires Evident(w, bound) && Advance(w, bound, Protocol(step)) == Some(w')
    ensures Evident(w', bound) && RowStep(w.sys.row, w'.sys.row)
  {
    hide WorkerMove, ReconcilerMove, RowInv;
    StepKeepsSafe(w.sys, step, w'.sys);
    match step
    case Work(owner, action) =>
      WorkerMoveKeepsEvidence(w.sys.row, w.sys.clock, owner, WorkerOf(w.sys, owner), action,
                              AdapterOf(w, owner), w.backend.edges, bound);
    case Reconcile(rid, inspection) =>
      ReconcilerMoveKeepsEvidence(w.sys.row, w.sys.clock, ReconcilerOf(w.sys, rid), inspection, w.backend.edges, bound);
    case _ =>
  }

  lemma AdapterKeepsEvidence(w: World, bound: seq<Binding>, event: Event, w': World)
    requires Evident(w, bound) && Advance(w, bound, event) == Some(w')
    requires event.Mismatch? || event.ReadBefore? || event.ReadAfter? || event.Raise?
    ensures Evident(w', bound) && w'.sys == w.sys
  {
    hide Safe, Apply, RowEvidence;
    ReaderTellsTheTruth(BoundTo(w, bound, event.owner), w.backend.edges);
  }

  lemma BackendKeepsEvidence(w: World, bound: seq<Binding>, event: Event, w': World)
    requires Evident(w, bound) && Advance(w, bound, event) == Some(w')
    requires event.Commit? || event.Outside?
    ensures Evident(w', bound) && w'.sys == w.sys
  {
    forall i: nat | Absent(w.backend.edges, bound, i) ensures Absent(w'.backend.edges, bound, i) {}
  }

  lemma ReturnKeepsEvidence(w: World, bound: seq<Binding>, owner: Token, w': World)
    requires Evident(w, bound) && Advance(w, bound, Return(owner)) == Some(w')
    ensures Evident(w', bound) && RowStep(w.sys.row, w'.sys.row)
  {
    hide RowInv, RowStep, ReconcilerMove;
    StepKeepsSafe(w.sys, Work(owner, AdapterReturns(w.adapters[owner].result)), w'.sys);
  }

  /** The edge is not reported missing while the plan's graph still has it. */
  predicate TruthfulRead(w: World, bound: seq<Binding>, event: Event) {
    event.Read? && MayRead(w, bound, event.rid) ==>
      var b := ReadFor(w, bound, event.rid);
      b.id !in SeenBy(w, event.elsewhere) ==> b.id !in w.backend.edges
  }

  lemma ReadIsEvidenceExactly(
    s: Sys, rid: nat, bound: seq<Binding>, seen: map<string, string>, edges: map<string, string>, s': Sys)
    requires rid in s.reconcilers && s.reconcilers[rid].Scanning? && s.reconcilers[rid].next < |bound|
    requires Apply(s, Reconcile(rid, Observe(ReadStatus(bound[s.reconcilers[rid].next], seen)))) == Some(s')
    ensures exists r ::
              && s' == s.(reconcilers := s.reconcilers[rid := r])
              && r.Observed? && r.next == s.reconcilers[rid].next
              && (ReconcilerEvidence(r, edges, bound)
                  <==> (bound[r.next].id !in seen ==> bound[r.next].id !in edges))
  {
    hide WorkerMove;
    var r := s.reconcilers[rid];
    var b := bound[r.next];
    ReaderTellsTheTruth(b, seen);
    var r' := Observed(r.rows, r.next, Verdict(r.rows[r.next], ReadStatus(b, seen)));
    assert s' == s.(reconcilers := s.reconcilers[rid := r']);
  }

  /** A read keeps the evidence for every stored and every pending success if and only if it is truthful. */
  lemma ReadKeepsEvidenceExactly(
    w: World, bound: seq<Binding>, rid: nat, elsewhere: Option<map<string, string>>, w': World)
    requires Evident(w, bound) && Advance(w, bound, Read(rid, elsewhere)) == Some(w')
    ensures Evident(w', bound) <==> TruthfulRead(w, bound, Read(rid, elsewhere))
    ensures RowStep(w.sys.row, w'.sys.row)
  {
    hide RowInv, RowStep;
    var seen := SeenBy(w, elsewhere);
    var status := ReadStatus(ReadFor(w, bound, rid), seen);
    StepKeepsSafe(w.sys, Reconcile(rid, Observe(status)), w'.sys);
    ReadIsEvidenceExactly(w.sys, rid, bound, seen, w.backend.edges, w'.sys);
    hide Apply, Safe, ReconcilerEvidence, WorkerEvidence, RowEvidence, ReadStatus;
    var r :| w'.sys == w.sys.(reconcilers := w.sys.reconcilers[rid := r]) && r.Observed?
             && r.next == w.sys.reconcilers[rid].next
             && (ReconcilerEvidence(r, w.backend.edges, bound)
                 <==> (bound[r.next].id !in seen ==> bound[r.next].id !in w.backend.edges));
    assert w'.sys.reconcilers[rid] == r;
  }

  lemma EventKeepsEvidence(w: World, bound: seq<Binding>, event: Event, w': World)
    requires Evident(w, bound) && Advance(w, bound, event) == Some(w') && TruthfulRead(w, bound, event)
    ensures Evident(w', bound)
    ensures RowStep(w.sys.row, w'.sys.row)
  {
    match event
    case Mismatch(_) => AdapterKeepsEvidence(w, bound, event, w');
    case Protocol(step) => ProtocolKeepsEvidence(w, bound, step, w');
    case ReadBefore(_) => AdapterKeepsEvidence(w, bound, event, w');
    case ReadAfter(_, _, _) => AdapterKeepsEvidence(w, bound, event, w');
    case Raise(_) => AdapterKeepsEvidence(w, bound, event, w');
    case Return(owner) => ReturnKeepsEvidence(w, bound, owner, w');
    case Commit(_) => BackendKeepsEvidence(w, bound, event, w');
    case Outside(_) => BackendKeepsEvidence(w, bound, event, w');
    case Read(rid, elsewhere) => ReadKeepsEvidenceExactly(w, bound, rid, elsewhere, w');
  }

  /** A run from w all of whose reads are truthful. */
  predicate TruthfulReads(w: World, bound: seq<Binding>, events: seq<Event>) {
    events == [] ||
    var init := events[..|events| - 1];
    && TruthfulReads(w, bound, init)
    && (Play(w, bound, events).Some? ==> TruthfulRead(Play(w, bound, init).value, bound, events[|events| - 1]))
  }

  /** Reads of the plan's own graph always are. */
  lemma {:induction false} ReadsOfTheGraphAreTruthful(w: World, bound: seq<Binding>, events: seq<Event>)
    requires forall event | event in events && event.Read? :: event.elsewhere.None?
    ensures TruthfulReads(w, bound, events)
  {
    if events != [] {
      hide Advance;
      ReadsOfTheGraphAreTruthful(w, bound, events[..|events| - 1]);
      assert events[|events| - 1] in events;
    }
  }

  lemma {:induction false} PlayKeepsEvidence(w: World, bound: seq<Binding>, events: seq<Event>, w': World)
    requires Evident(w, bound) && Play(w, bound, events) == Some(w') && TruthfulReads(w, bound, events)
    ensures Evident(w', bound)
    ensures IsSuccess(w.sys.row.status) ==> IsSuccess(w'.sys.row.status)
  {
    if events != [] {
      hide Advance, TruthfulRead, RowInv, RowStep;
      var middle := Play(w, bound, events[..|events| - 1]).value;
      PlayKeepsEvidence(w, bound, events[..|events| - 1], middle);
      EventKeepsEvidence(middle, bound, events[|events| - 1], w');
      SuccessStays(middle.sys.row, w'.sys.row);
    }
  }

  lemma InitIsEvident(w: World, bound: seq<Binding>)
    requires Init(w.sys) && w.adapters == map[] && |bound| == |w.sys.row.ops|
    ensures Evident(w, bound)
  {
    InitIsSafe(w.sys);
    forall i | 0 <= i < |w.sys.row.ops| ensures w.sys.row.ops[i] in w.sys.row.ops {}
  }

  lemma SuccessMeansGone(w: World, bound: seq<Binding>)
    requires Evident(w, bound) && IsSuccess(w.sys.row.status)
    ensures forall b | b in bound :: b.id !in w.backend.edges
  {
    forall i | 0 <= i < |bound| ensures bound[i].id !in w.backend.edges {
      assert w.sys.row.ops[i] in w.sys.row.ops;
      assert Absent(w.backend.edges, bound, i);
    }
  }

  /** If an edge-delete plan ever is APPLIED or ALREADY_APPLIED, every edge it is bound to is gone, in
      that state and in every later one, whatever confirm, reconcile and resume calls were made, as long
      as no reconciler reported an edge missing that the plan's graph still had. */
  lemma AppliedDeletesAreGone(
    start: World, bound: seq<Binding>, before: seq<Event>, w: World, after: seq<Event>, w': World)
    requires Init(start.sys) && start.adapters == map[] && |bound| == |start.sys.row.ops|
    requires Play(start, bound, before) == Some(w) && Play(w, bound, after) == Some(w')
    requires IsSuccess(w.sys.row.status) && TruthfulReads(start, bound, before) && TruthfulReads(w, bound, after)
    ensures forall b | b in bound :: b.id !in w.backend.edges && b.id !in w'.backend.edges
  {
    InitIsEvident(start, bound);
    PlayKeepsEvidence(start, bound, before, w);
    PlayKeepsEvidence(w, bound, after, w');
    SuccessMeansGone(w, bound);
    SuccessMeansGone(w', bound);
  }

  /** In particular if every reconciler was configured for the plan's graph. */
  lemma DeletesAreGoneWhenReadOnTheGraph(
    start: World, bound: seq<Binding>, before: seq<Event>, w: World, after: seq<Event>, w': World)
    requires Init(start.sys) && start.adapters == map[] && |bound| == |start.sys.row.ops|
    requires Play(start, bound, before) == Some(w) && Play(w, bound, after) == Some(w')
    requires forall event | event in before + after && event.Read? :: event.elsewhere.None?
    requires IsSuccess(w.sys.row.status)
    ensures forall b | b in bound :: b.id !in w.backend.edges && b.id !in w'.backend.edges
  {
    hide Init, Play, TruthfulReads;
    assert forall event | event in before :: event in before + after;
    assert forall event | event in after :: event in before + after;
    ReadsOfTheGraphAreTruthful(start, bound, before);
    ReadsOfTheGraphAreTruthful(w, bound, after);
    AppliedDeletesAreGone(start, bound, before, w, after, w');
  }

  /** Nothing less will do: a reconciler configured for another graph, which cannot know what the plan's
      graph holds, is safe whatever it reads there if and only if the edge is gone already. */
  lemma OtherGraphsAreSafeExactlyWhenGone(w: World, bound: seq<Binding>, rid: nat)
    requires Evident(w, bound) && MayRead(w, bound, rid) && Advance(w, bound, Read(rid, None)).Some?
    ensures (forall other, w' | Advance(w, bound, Read(rid, Some(other))) == Some(w') :: Evident(w', bound))
            <==> ReadFor(w, bound, rid).id !in w.backend.edges
  {
    hide Advance, Evident;
    if ReadFor(w, bound, rid).id in w.backend.edges {
      var w' := ReadIsDue(w, bound, rid, map[]);
      ReadKeepsEvidenceExactly(w, bound, rid, Some(map[]), w');
    } else {
      forall other, w' | Advance(w, bound, Read(rid, Some(other))) == Some(w') ensures Evident(w', bound) {
        ReadKeepsEvidenceExactly(w, bound, rid, Some(other), w');
      }
    }
  }

  /** Whether a read can be made does not depend on what it sees. */
  lemma ReadIsDue(w: World, bound: seq<Binding>, rid: nat, other: map<string, string>) returns (w': World)
    requires MayRead(w, bound, rid) && Advance(w, bound, Read(rid, None)).Some?
    ensures Advance(w, bound, Read(rid, Some(other))) == Some(w')
  {
    hide WorkerMove;
    ReaderTellsTheTruth(ReadFor(w, bound, rid), other);
    w' := Advance(w, bound, Read(rid, Some(other))).value;
  }

  // ---- The same adapter as one call --------------------------------------------

  /** The graph that one adapter call works on, while other clients do as they like. */
  class Connection {
    const target: string
    var edges: map<string, string>
    var requests: seq<string>
    ghost var disturbed: bool

    constructor (target: string, edges: map<string, string>)
      ensures this.target == target && this.edges == edges && requests == [] && !disturbed
    {
      this.target := target;
      this.edges := edges;
      requests, disturbed := [], false;
    }

    /** Other clients change anything, but never re-create an edge id. */
    method Interfere(id: string)
      modifies this`edges, this`disturbed
      ensures old(disturbed) ==> disturbed
      ensures !disturbed ==> edges == old(edges)
      ensures id in edges ==> id in old(edges)
    {
      var others: map<string, string> := *;
      if id in others ==> id in edges { edges, disturbed := others, true; }
    }

    /** `_read_delete_target`; None when the read fails. */
    method Observe(b: Binding) returns (observed: Option<State>)
      modifies this`edges, this`disturbed
      ensures old(disturbed) ==> disturbed
      ensures !disturbed ==> edges == old(edges)
      ensures b.id in edges ==> b.id in old(edges)
      ensures observed.Some? ==> observed.value == ReadDeleteTarget(b, edges)
    {
      Interfere(b.id);
      if * { return None; }
      observed := Some(ReadDeleteTarget(b, edges));
    }

    /** The request may be applied or not, and may be reported in any way; None when it raises. */
    method SendDelete(id: string) returns (report: Option<(bool, bool)>)
      modifies this
      ensures requests == old(requests) + [id]
      ensures old(disturbed) ==> disturbed
      ensures !disturbed ==> edges == old(edges) || edges == old(edges) - {id}
      ensures id in edges ==> id in old(edges)
    {
      Interfere(id);
      requests := requests + [id];
      if * { edges := edges - {id}; }
      report := *;
    }

    /** `_delete_adapter`: the answer, None when a backend call raised, and the requests it sent. */
    method DeleteAdapter(b: Binding, planned: string) returns (result: Option<ApplyStatus>)
      requires !disturbed
      modifies this
      ensures requests == old(requests) || requests == old(requests) + [b.id]
      ensures planned != target ==>
                result == Some(PlanStatus.Rejected) && requests == old(requests) && edges == old(edges)
      ensures result.Some? && IsSuccess(result.value) ==> b.id !in edges
      ensures result == Some(PlanStatus.AlreadyApplied) ==> requests == old(requests)
      ensures result == Some(PlanStatus.Applied) ==> requests == old(requests) + [b.id]
      ensures !disturbed && planned == target && result.Some? ==>
                && result.value in {PlanStatus.AlreadyApplied, PlanStatus.Applied, PlanStatus.Conflict}
                && (IsSuccess(result.value) <==> b.id !in edges)
                && (result.value == PlanStatus.AlreadyApplied <==> b.id !in old(edges))
                && requests == (if b.id in old(edges) && old(edges)[b.id] == b.edgeLabel then old(requests) + [b.id]
                                else old(requests))
      ensures !disturbed ==> edges == old(edges) || edges == old(edges) - {b.id}
    {
      if planned != target { return Some(PlanStatus.Rejected); }
      var before := Observe(b);
      if before.None? { return None; }
      ReaderTellsTheTruth(b, edges);
      if ReportsAbsent(before.value) { return Some(PlanStatus.AlreadyApplied); }
      if before.value != ExpectedState(b) { return Some(PlanStatus.Conflict); }
      var report := SendDelete(b.id);
      if report.None? { return None; }
      var after := Observe(b);
      if after.None? { return None; }
      ReaderTellsTheTruth(b, edges);
      if ReportsAbsent(after.value) { return Some(PlanStatus.Applied); }
      result := Some(PostWriteStatus(false, report.value.0, report.value.1, PlanStatus.Conflict));
    }
  }
}
