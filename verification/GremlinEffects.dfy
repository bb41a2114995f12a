/** What each query that is built does: the writes change what they should and nothing else, and the
    matches find what they should. */
module GremlinEffects {
  import opened Wrappers
  import opened GremlinPrinter
  import opened GremlinSyntax
  import opened GremlinBuilders
  import opened GremlinMeaning

  // ---- Step by step --------------------------------------------------------------------------

  lemma {:induction false} ExecuteAppend(g: Graph, ts: seq<Traverser>, a: seq<Step>, b: seq<Step>, newId: Value)
    ensures Execute(g, ts, a + b, newId)
         == var o := Execute(g, ts, a, newId);
            if o.Failed? then Failed else Execute(o.graph, o.traversers, b, newId)
    decreases |a|
  {
    hide After, EffectAll, Writes;
    if a == [] {
      assert a + b == b;
    } else {
      assert (a + b)[1..] == a[1..] + b;
      if Writes(a[0].name) {
        var o := EffectAll(g, ts, a[0], newId);
        if o.Done? { ExecuteAppend(o.graph, o.traversers, a[1..], b, newId); }
      } else {
        ExecuteAppend(g, After(g, ts, a[0]), a[1..], b, newId);
      }
    }
  }

  lemma OneEffect(g: Graph, t: Traverser, s: Step, newId: Value)
    requires Writes(s.name)
    ensures Execute(g, [t], [s], newId) == Effect(g, t, s, newId)
  {
    hide Effect;
    var o := Effect(g, t, s, newId);
    assert [t][1..] == [] && [s][1..] == [];
    if o.Done? {
      assert EffectAll(o.graph, [], s, newId) == Done(o.graph, []);
      assert o.traversers + [] == o.traversers;
      assert EffectAll(g, [t], s, newId) == Done(o.graph, o.traversers);
      assert Execute(o.graph, o.traversers, [], newId) == Done(o.graph, o.traversers);
    }
  }

  lemma {:induction false} NobodyDoesNothing(g: Graph, steps: seq<Step>, newId: Value)
    ensures Execute(g, [], steps, newId) == Done(g, [])
    decreases |steps|
  {
    if steps != [] {
      NobodyDoesNothing(g, steps[1..], newId);
      assert After(g, [], steps[0]) == [];
    }
  }

  lemma OneRead(g: Graph, t: Traverser, s: Step, newId: Value)
    requires !Writes(s.name) && s.name != "limit"
    ensures Execute(g, [t], [s], newId) == Done(g, Next(g, t, s.name, s.args))
  {
    hide Next;
    assert [s][1..] == [];
    assert [t][1..] == [];
    assert NextAll(g, [], s.name, s.args) == [];
    assert After(g, [t], s) == Next(g, t, s.name, s.args);
  }

  lemma NamesOfSteps()
    ensures forall n | n in {"V", "E", "as", "not", "hasLabel", "has", "hasId", "outE", "where", "inV", "id"} ::
              !Writes(n) && n != "limit"
    ensures !Writes("limit")
    ensures forall n | n in {"addV", "addE", "from", "property", "drop"} :: Writes(n)
  {
  }

  /** The traversal starts at the element with that id, if there is one. */
  lemma StartAtVertex(g: Graph, id: Value, rest: seq<Step>, newId: Value)
    ensures Meaning(g, [Call1("V", id)] + rest, newId)
         == if VertexIn(g.vertices, id).None? then Done(g, [])
            else Execute(g, [START.(at := AtVertex(id))], rest, newId)
  {
    NamesOfSteps();
    hide Writes, Execute, VertexIn;
    ExecuteAppend(g, [START], [Call1("V", id)], rest, newId);
    OneRead(g, START, Call1("V", id), newId);
    NobodyDoesNothing(g, rest, newId);
  }

  lemma StartAtEdge(g: Graph, id: Value, rest: seq<Step>, newId: Value)
    ensures Meaning(g, [Call1("E", id)] + rest, newId)
         == if EdgeIn(g.edges, id).None? then Done(g, [])
            else Execute(g, [START.(at := AtEdge(id))], rest, newId)
  {
    NamesOfSteps();
    hide Writes, Execute, EdgeIn;
    ExecuteAppend(g, [START], [Call1("E", id)], rest, newId);
    OneRead(g, START, Call1("E", id), newId);
    NobodyDoesNothing(g, rest, newId);
  }

  // ---- Deletes -------------------------------------------------------------------------------------

  predicate HasIncident(es: seq<Edge>, id: Value) {
    exists i :: 0 <= i < |es| && Incident(es[i], id)
  }

  lemma {:induction false} IncidentEdgesFound(es: seq<Edge>, id: Value, t: Traverser)
    ensures IncidentEdges(es, id, t) != [] <==> HasIncident(es, id)
  {
    if es != [] {
      IncidentEdgesFound(es[1..], id, t);
      if i :| 0 <= i < |es| && Incident(es[i], id) {
        if i > 0 { assert Incident(es[1..][i - 1], id); }
      }
      if i :| 0 <= i < |es[1..]| && Incident(es[1..][i], id) { assert Incident(es[i + 1], id); }
    }
  }

  lemma NotBothKeeps(g: Graph, t: Traverser, newId: Value)
    requires t.at.AtVertex?
    ensures Execute(g, [t], [Step("not", [Anonymous("bothE", [], [])])], newId)
         == Done(g, if HasIncident(g.edges, t.at.id) then [] else [t])
  {
    NamesOfSteps();
    hide Writes, HasIncident;
    var s := Step("not", [Anonymous("bothE", [], [])]);
    OneRead(g, t, s, newId);
    IncidentEdgesFound(g.edges, t.at.id, t);
    BothEdges(g, t);
    hide Execute;
    assert Next(g, t, s.name, s.args) == KeepIf(IncidentEdges(g.edges, t.at.id, t) == [], t);
  }

  lemma BothEdges(g: Graph, t: Traverser)
    requires t.at.AtVertex?
    ensures Traverse(g, NextAll(g, [t], "bothE", []), []) == IncidentEdges(g.edges, t.at.id, t)
  {
    assert [t][1..] == [];
    assert NextAll(g, [], "bothE", []) == [];
    assert Next(g, t, "bothE", []) == IncidentEdges(g.edges, t.at.id, t);
    assert IncidentEdges(g.edges, t.at.id, t) + [] == IncidentEdges(g.edges, t.at.id, t);
  }

  lemma DropsVertex(g: Graph, t: Traverser, newId: Value)
    requires t.at.AtVertex?
    ensures Execute(g, [t], [Call0("drop")], newId)
         == Done(Graph(WithoutVertex(g.vertices, t.at.id), WithoutIncident(g.edges, t.at.id)), [])
  {
    NamesOfSteps();
    hide Writes;
    OneEffect(g, t, Call0("drop"), newId);
    hide Execute;
  }

  /** Deleting a vertex: it goes, with its edges if it has any, and nothing else; but without `cascade`
      a vertex that has edges stays, and so does everything. */
  lemma DeleteVertexDoes(g: Graph, target: Value, cascade: bool, newId: Value)
    ensures Meaning(g, WriteTree(DeleteVertex(target, cascade)), newId)
         == Done(if VertexIn(g.vertices, target).None? || (!cascade && HasIncident(g.edges, target)) then g
                 else Graph(WithoutVertex(g.vertices, target), WithoutIncident(g.edges, target)),
                 [])
  {
    hide Execute, VertexIn, HasIncident, WithoutVertex, WithoutIncident, Meaning;
    var t := START.(at := AtVertex(target));
    var guard := Step("not", [Anonymous("bothE", [], [])]);
    var rest := if cascade then [Call0("drop")] else [guard] + [Call0("drop")];
    assert WriteTree(DeleteVertex(target, cascade)) == [Call1("V", target)] + rest;
    StartAtVertex(g, target, rest, newId);
    DropsVertex(g, t, newId);
    if !cascade {
      ExecuteAppend(g, [t], [guard], [Call0("drop")], newId);
      NotBothKeeps(g, t, newId);
      NobodyDoesNothing(g, [Call0("drop")], newId);
    }
  }

  /** What is left: every vertex but the target, in their order, and every edge that does not touch it. */
  lemma {:induction false} WithoutVertexKeeps(vs: seq<Vertex>, id: Value, v: Vertex)
    ensures v in WithoutVertex(vs, id) <==> v in vs && v.id != id
  {
    if vs != [] { WithoutVertexKeeps(vs[1..], id, v); }
  }

  lemma {:induction false} WithoutIncidentKeeps(es: seq<Edge>, id: Value, e: Edge)
    ensures e in WithoutIncident(es, id) <==> e in es && e.source != id && e.target != id
  {
    if es != [] { WithoutIncidentKeeps(es[1..], id, e); }
  }

  lemma {:induction false} WithoutEdgeKeeps(es: seq<Edge>, id: Value, e: Edge)
    ensures e in WithoutEdge(es, id) <==> e in es && e.id != id
  {
    if es != [] { WithoutEdgeKeeps(es[1..], id, e); }
  }

  /** Deleting an edge: it goes, and nothing else. */
  lemma DeleteEdgeDoes(g: Graph, target: Value, newId: Value)
    ensures Meaning(g, WriteTree(DeleteEdge(target)), newId)
         == Done(if EdgeIn(g.edges, target).None? then g else g.(edges := WithoutEdge(g.edges, target)), [])
  {
    hide Execute, EdgeIn, WithoutEdge, Meaning;
    var t := START.(at := AtEdge(target));
    assert WriteTree(DeleteEdge(target)) == [Call1("E", target)] + [Call0("drop")];
    StartAtEdge(g, target, [Call0("drop")], newId);
    NamesOfSteps();
    hide Writes;
    OneEffect(g, t, Call0("drop"), newId);
  }

  // ---- Creations -----------------------------------------------------------------------------------

  /** The properties with those of a JSON object, of which a later entry would replace an earlier one. */
  function With(properties: Labelled, m: Properties): Labelled
    decreases |m|
  {
    if m == [] then properties else With(properties[m[0].0 := m[0].1], m[1..])
  }

  /** With different keys, as a JSON object has, exactly its entries are added. */
  lemma {:induction false} WithTells(properties: Labelled, m: Properties, key: string)
    requires forall i, j | 0 <= i < j < |m| :: m[i].0 != m[j].0
    ensures var all := With(properties, m);
            && (forall i | 0 <= i < |m| :: m[i].0 in all && all[m[i].0] == m[i].1)
            && ((forall i | 0 <= i < |m| :: m[i].0 != key) ==>
                  (key in all <==> key in properties) && (key in all ==> all[key] == properties[key]))
    decreases |m|
  {
    if m != [] {
      var rest, more := m[1..], properties[m[0].0 := m[0].1];
      assert forall i | 1 <= i < |m| :: m[i] == rest[i - 1];
      WithTells(more, rest, key);
      WithTells(more, rest, m[0].0);
    }
  }

  lemma {:induction false} VertexBehind(vs: seq<Vertex>, v: Vertex)
    requires VertexIn(vs, v.id).None?
    ensures VertexIn(vs + [v], v.id) == Some(v)
    ensures forall w :: ChangeVertex(vs + [v], v.id, w) == vs + [w]
  {
    if vs != [] {
      VertexBehind(vs[1..], v);
      assert (vs + [v])[1..] == vs[1..] + [v];
      NotThere(vs, v.id);
    }
    forall w ensures ChangeVertex(vs + [v], v.id, w) == vs + [w] { NotThere(vs, v.id); }
  }

  lemma {:induction false} NotThere(vs: seq<Vertex>, id: Value)
    ensures VertexIn(vs, id).None? <==> forall i | 0 <= i < |vs| :: vs[i].id != id
  {
    if vs != [] {
      NotThere(vs[1..], id);
      assert forall i | 1 <= i < |vs| :: vs[i] == vs[1..][i - 1];
    }
  }

  lemma {:induction false} EdgeNotThere(es: seq<Edge>, id: Value)
    ensures EdgeIn(es, id).None? <==> forall i | 0 <= i < |es| :: es[i].id != id
  {
    if es != [] {
      EdgeNotThere(es[1..], id);
      assert forall i | 1 <= i < |es| :: es[i] == es[1..][i - 1];
    }
  }

  lemma {:induction false} EdgeBehind(es: seq<Edge>, e: Edge)
    requires EdgeIn(es, e.id).None?
    ensures EdgeIn(es + [e], e.id) == Some(e)
    ensures forall w :: ChangeEdge(es + [e], e.id, w) == es + [w]
  {
    if es != [] {
      EdgeBehind(es[1..], e);
      assert (es + [e])[1..] == es[1..] + [e];
      EdgeNotThere(es, e.id);
    }
    forall w ensures ChangeEdge(es + [e], e.id, w) == es + [w] { EdgeNotThere(es, e.id); }
  }

  lemma PropertyEffect(g: Graph, t: Traverser, key: string, v: Value, newId: Value)
    ensures Execute(g, [t], [PropertyTree(key, v)], newId) == SetProperty(g, t, key, v)
  {
    NamesOfSteps();
    hide Writes;
    OneEffect(g, t, PropertyTree(key, v), newId);
    hide Execute, SetProperty;
  }

  lemma FirstProperty(m: Properties)
    requires m != []
    ensures PropertyTrees(m) == [PropertyTree(m[0].0, m[0].1)] + PropertyTrees(m[1..])
  {
  }

  lemma {:induction false} PropertiesOfVertex(
    g: Graph, vs: seq<Vertex>, v: Vertex, t: Traverser, m: Properties, newId: Value)
    requires g.vertices == vs + [v] && VertexIn(vs, v.id).None? && t.at == AtVertex(v.id)
    ensures Execute(g, [t], PropertyTrees(m), newId)
         == Done(g.(vertices := vs + [v.(properties := With(v.properties, m))]), [t])
    decreases |m|
  {
    hide Execute, VertexIn, ChangeVertex;
    if m == [] {
      assert PropertyTrees(m) == [];
      NoSteps(g, [t], newId);
      assert g.(vertices := vs + [v.(properties := v.properties)]) == g;
    } else {
      FirstProperty(m);
      hide PropertyTrees, PropertyTree;
      ExecuteAppend(g, [t], [PropertyTree(m[0].0, m[0].1)], PropertyTrees(m[1..]), newId);
      PropertyEffect(g, t, m[0].0, m[0].1, newId);
      VertexBehind(vs, v);
      var w := v.(properties := v.properties[m[0].0 := m[0].1]);
      var g' := g.(vertices := vs + [w]);
      assert SetProperty(g, t, m[0].0, m[0].1) == Done(g', [t]);
      PropertiesOfVertex(g', vs, w, t, m[1..], newId);
    }
  }

  lemma {:induction false} PropertiesOfEdge(g: Graph, es: seq<Edge>, e: Edge, t: Traverser, m: Properties, newId: Value)
    requires g.edges == es + [e] && EdgeIn(es, e.id).None? && t.at == AtEdge(e.id)
    ensures Execute(g, [t], PropertyTrees(m), newId)
         == Done(g.(edges := es + [e.(properties := With(e.properties, m))]), [t])
    decreases |m|
  {
    hide Execute, EdgeIn, ChangeEdge;
    if m == [] {
      assert PropertyTrees(m) == [];
      NoSteps(g, [t], newId);
      assert g.(edges := es + [e.(properties := e.properties)]) == g;
    } else {
      FirstProperty(m);
      hide PropertyTrees, PropertyTree;
      ExecuteAppend(g, [t], [PropertyTree(m[0].0, m[0].1)], PropertyTrees(m[1..]), newId);
      PropertyEffect(g, t, m[0].0, m[0].1, newId);
      EdgeBehind(es, e);
      var f := e.(properties := e.properties[m[0].0 := m[0].1]);
      var g' := g.(edges := es + [f]);
      assert SetProperty(g, t, m[0].0, m[0].1) == Done(g', [t]);
      PropertiesOfEdge(g', es, f, t, m[1..], newId);
    }
  }

  lemma NoSteps(g: Graph, ts: seq<Traverser>, newId: Value)
    ensures Execute(g, ts, [], newId) == Done(g, ts)
  {
  }

  lemma AddsVertex(g: Graph, name: Value, newId: Value)
    requires VertexIn(g.vertices, newId).None?
    ensures Execute(g, [START], [Call1("addV", name)], newId)
         == Done(g.(vertices := g.vertices + [Vertex(newId, name, map[])]), [START.(at := AtVertex(newId))])
  {
    NamesOfSteps();
    hide Writes, VertexIn;
    OneEffect(g, START, Call1("addV", name), newId);
    hide Execute;
  }

  lemma SetsId(g: Graph, t: Traverser, id: Value, newId: Value)
    ensures Execute(g, [t], [Step("property", [Member("T", "id"), Given(id)])], newId) == SetId(g, t, id)
  {
    NamesOfSteps();
    hide Writes;
    OneEffect(g, t, Step("property", [Member("T", "id"), Given(id)]), newId);
    hide Execute, SetId;
  }

  lemma NewVertex(g: Graph, name: Value, id: Option<Value>, newId: Value)
    requires VertexIn(g.vertices, newId).None? && (HasId(id) ==> id.value != newId)
    ensures var own := if HasId(id) then id.value else newId;
            Execute(g, [START], CreateVertexTree(name, id), newId)
            == if VertexIn(g.vertices, own).Some? then Failed
               else Done(g.(vertices := g.vertices + [Vertex(own, name, map[])]), [START.(at := AtVertex(own))])
  {
    hide Execute, VertexIn, ChangeVertex;
    AddsVertex(g, name, newId);
    if HasId(id) {
      var v := Vertex(newId, name, map[]);
      var g' := g.(vertices := g.vertices + [v]);
      var t := START.(at := AtVertex(newId));
      ExecuteAppend(g, [START], [Call1("addV", name)], [Step("property", [Member("T", "id"), Given(id.value)])], newId);
      SetsId(g', t, id.value, newId);
      VertexBehind(g.vertices, v);
      StillNotThere(g.vertices, v, id.value);
    } else {
      assert CreateVertexTree(name, id) == [Call1("addV", name)];
    }
  }

  lemma {:induction false} StillNotThere(vs: seq<Vertex>, v: Vertex, id: Value)
    requires v.id != id
    ensures VertexIn(vs + [v], id) == VertexIn(vs, id)
  {
    if vs != [] {
      StillNotThere(vs[1..], v, id);
      assert (vs + [v])[1..] == vs[1..] + [v];
    }
  }

  /** Creating a vertex: one vertex more, with the given label, id and properties; it fails if and only if the
      given id is taken. */
  lemma CreateVertexDoes(g: Graph, name: Value, id: Option<Value>, m: Properties, newId: Value)
    requires VertexIn(g.vertices, newId).None? && (HasId(id) ==> id.value != newId)
    ensures var own := if HasId(id) then id.value else newId;
            Meaning(g, WriteTree(CreateVertex(name, id, m)), newId)
            == if VertexIn(g.vertices, own).Some? then Failed
               else Done(g.(vertices := g.vertices + [Vertex(own, name, With(map[], m))]),
                         [START.(at := AtVertex(own))])
  {
    hide Execute, VertexIn;
    var own := if HasId(id) then id.value else newId;
    ExecuteAppend(g, [START], CreateVertexTree(name, id), PropertyTrees(m), newId);
    NewVertex(g, name, id, newId);
    if VertexIn(g.vertices, own).None? {
      var v := Vertex(own, name, map[]);
      var g' := g.(vertices := g.vertices + [v]);
      PropertiesOfVertex(g', g.vertices, v, START.(at := AtVertex(own)), m, newId);
    }
  }

  lemma MarksSource(g: Graph, t: Traverser, newId: Value)
    ensures Execute(g, [t], [Call1("as", Text("s"))], newId) == Done(g, [t.(tags := t.tags["s" := t.at])])
  {
    NamesOfSteps();
    hide Writes;
    OneRead(g, t, Call1("as", Text("s")), newId);
    hide Execute;
  }

  lemma GoesToVertex(g: Graph, t: Traverser, id: Value, newId: Value)
    ensures Execute(g, [t], [Call1("V", id)], newId)
         == Done(g, if VertexIn(g.vertices, id).Some? then [t.(at := AtVertex(id))] else [])
  {
    NamesOfSteps();
    hide Writes, VertexIn;
    OneRead(g, t, Call1("V", id), newId);
    hide Execute;
  }

  lemma AddsEdge(g: Graph, t: Traverser, name: Value, newId: Value)
    ensures Execute(g, [t], [Call1("addE", name)], newId) == AddEdge(g, t, name, newId)
    ensures Execute(g, [t], [Call1("from", Text("s"))], newId) == FromMark(g, t, "s")
  {
    NamesOfSteps();
    hide Writes;
    OneEffect(g, t, Call1("addE", name), newId);
    OneEffect(g, t, Call1("from", Text("s")), newId);
    hide Execute, AddEdge, FromMark;
  }

  /** The edge before it has its properties, and the traverser at it. */
  lemma NewEdge(g: Graph, source: Value, target: Value, name: Value, t: Traverser, newId: Value)
    requires EdgeIn(g.edges, newId).None? && t.at == AtVertex(target) && "s" in t.tags
    requires t.tags["s"] == AtVertex(source)
    ensures Execute(g, [t], [Call1("addE", name)] + [Call1("from", Text("s"))], newId)
         == Done(g.(edges := g.edges + [Edge(newId, name, source, target, map[])]), [t.(at := AtEdge(newId))])
  {
    hide Execute, EdgeIn, ChangeEdge;
    var loop := Edge(newId, name, target, target, map[]);
    var g' := g.(edges := g.edges + [loop]);
    var t' := t.(at := AtEdge(newId));
    ExecuteAppend(g, [t], [Call1("addE", name)], [Call1("from", Text("s"))], newId);
    AddsEdge(g, t, name, newId);
    AddsEdge(g', t', name, newId);
    EdgeBehind(g.edges, loop);
  }

  lemma EdgeStepsAre(source: Value, target: Value, name: Value)
    ensures CreateEdgeTree(source, target, name)
         == [Call1("V", source)]
            + ([Call1("as", Text("s"))] + ([Call1("V", target)] + ([Call1("addE", name)] + [Call1("from", Text("s"))])))
  {
  }

  lemma Connects(g: Graph, source: Value, target: Value, name: Value, newId: Value)
    requires EdgeIn(g.edges, newId).None?
    ensures var both := VertexIn(g.vertices, source).Some? && VertexIn(g.vertices, target).Some?;
            var t := Traverser(AtEdge(newId), map["s" := AtVertex(source)]);
            Execute(g, [START], CreateEdgeTree(source, target, name), newId)
            == if both then Done(g.(edges := g.edges + [Edge(newId, name, source, target, map[])]), [t])
               else Done(g, [])
  {
    hide Execute, VertexIn, EdgeIn;
    var add := [Call1("addE", name)] + [Call1("from", Text("s"))];
    var a, b := START.(at := AtVertex(source)), Traverser(AtVertex(source), map["s" := AtVertex(source)]);
    EdgeStepsAre(source, target, name);
    hide CreateEdgeTree;
    StartAtVertex(g, source, [Call1("as", Text("s"))] + ([Call1("V", target)] + add), newId);
    ExecuteAppend(g, [a], [Call1("as", Text("s"))], [Call1("V", target)] + add, newId);
    MarksSource(g, a, newId);
    ExecuteAppend(g, [b], [Call1("V", target)], add, newId);
    GoesToVertex(g, b, target, newId);
    NobodyDoesNothing(g, add, newId);
    NewEdge(g, source, target, name, b.(at := AtVertex(target)), newId);
  }

  /** Creating an edge: one edge more, from the source to the target, if both are there; else nothing. */
  lemma CreateEdgeDoes(g: Graph, source: Value, target: Value, name: Value, m: Properties, newId: Value)
    requires EdgeIn(g.edges, newId).None?
    ensures var both := VertexIn(g.vertices, source).Some? && VertexIn(g.vertices, target).Some?;
            var o := Meaning(g, WriteTree(CreateEdge(source, target, name, m)), newId);
            && o.Done?
            && o.graph == if both then g.(edges := g.edges + [Edge(newId, name, source, target, With(map[], m))]) else g
  {
    hide Execute, VertexIn, EdgeIn;
    ExecuteAppend(g, [START], CreateEdgeTree(source, target, name), PropertyTrees(m), newId);
    Connects(g, source, target, name, newId);
    NobodyDoesNothing(g, PropertyTrees(m), newId);
    var e := Edge(newId, name, source, target, map[]);
    var g' := g.(edges := g.edges + [e]);
    PropertiesOfEdge(g', g.edges, e, Traverser(AtEdge(newId), map["s" := AtVertex(source)]), m, newId);
  }

  // ---- Matches ------------------------------------------------------------------------------------------

  /** The vertex has the label and every entry of the match; the key "id" stands for its id. */
  predicate Matches(v: Vertex, name: Value, m: Properties) {
    && v.name == name
    && forall i | 0 <= i < |m| ::
         if m[i].0 == "id" then v.id == m[i].1 else m[i].0 in v.properties && v.properties[m[i].0] == m[i].1
  }

  function Matching(vs: seq<Vertex>, name: Value, m: Properties): seq<Value> {
    if vs == [] then [] else (if Matches(vs[0], name, m) then [vs[0].id] else []) + Matching(vs[1..], name, m)
  }

  /** The edge leads from that vertex to one that matches. */
  predicate LeadsTo(g: Graph, e: Edge, source: Value, name: Value, target: Value, m: Properties) {
    && e.source == source && e.name == name
    && VertexIn(g.vertices, e.target).Some? && Matches(VertexIn(g.vertices, e.target).value, target, m)
  }

  function Leading(g: Graph, es: seq<Edge>, source: Value, name: Value, target: Value, m: Properties): seq<Value> {
    if es == [] then []
    else
      (if LeadsTo(g, es[0], source, name, target, m) then [es[0].id] else [])
      + Leading(g, es[1..], source, name, target, m)
  }

  /** The edges from every vertex that matches the source, vertex by vertex. */
  function MatchingEdges(
    g: Graph, vs: seq<Vertex>, source: Value, sourceMatch: Properties, name: Value, target: Value, m: Properties)
    : seq<Value>
  {
    if vs == [] then []
    else
      (if Matches(vs[0], source, sourceMatch) then Leading(g, g.edges, vs[0].id, name, target, m) else [])
      + MatchingEdges(g, vs[1..], source, sourceMatch, name, target, m)
  }

  function FirstTwo(ids: seq<Value>): seq<Value> {
    if |ids| > 2 then ids[..2] else ids
  }

  function Answers(ids: seq<Value>): seq<Traverser> {
    seq(|ids|, i requires 0 <= i < |ids| => START.(at := Plain(ids[i])))
  }

  function VerticesAt(ids: seq<Value>): seq<Traverser> {
    seq(|ids|, i requires 0 <= i < |ids| => START.(at := AtVertex(ids[i])))
  }

  function EdgesAt(ids: seq<Value>): seq<Traverser> {
    seq(|ids|, i requires 0 <= i < |ids| => START.(at := AtEdge(ids[i])))
  }

  lemma {:induction false} ReadsOnly(g: Graph, ts: seq<Traverser>, steps: seq<Step>, newId: Value)
    requires forall i | 0 <= i < |steps| :: !Writes(steps[i].name)
    ensures Execute(g, ts, steps, newId) == Done(g, Traverse(g, ts, steps))
    decreases |steps|
  {
    if steps != [] {
      hide After, EffectAll, Writes;
      ReadsOnly(g, After(g, ts, steps[0]), steps[1..], newId);
    }
  }

  lemma {:induction false} TraverseAppend(g: Graph, ts: seq<Traverser>, a: seq<Step>, b: seq<Step>)
    ensures Traverse(g, ts, a + b) == Traverse(g, Traverse(g, ts, a), b)
    decreases |a|
  {
    hide After;
    if a == [] {
      assert a + b == b;
    } else {
      assert (a + b)[1..] == a[1..] + b;
      TraverseAppend(g, After(g, ts, a[0]), a[1..], b);
    }
  }

  lemma TraverseOne(g: Graph, ts: seq<Traverser>, s: Step)
    ensures Traverse(g, ts, [s]) == After(g, ts, s)
    ensures s.name != "limit" ==> After(g, ts, s) == NextAll(g, ts, s.name, s.args)
  {
    hide NextAll;
    assert [s][1..] == [];
    assert Traverse(g, After(g, ts, s), []) == After(g, ts, s);
  }

  lemma {:induction false} NextAllAppend(g: Graph, a: seq<Traverser>, b: seq<Traverser>, name: string, args: seq<Arg>)
    ensures NextAll(g, a + b, name, args) == NextAll(g, a, name, args) + NextAll(g, b, name, args)
    decreases |a|
  {
    hide Next;
    if a == [] {
      assert a + b == b;
    } else {
      assert (a + b)[1..] == a[1..] + b;
      NextAllAppend(g, a[1..], b, name, args);
    }
  }

  /** Steps other than `limit` treat every traverser on its own. */
  lemma {:induction false} TraverseApart(g: Graph, a: seq<Traverser>, b: seq<Traverser>, steps: seq<Step>)
    requires forall i | 0 <= i < |steps| :: steps[i].name != "limit"
    ensures Traverse(g, a + b, steps) == Traverse(g, a, steps) + Traverse(g, b, steps)
    decreases |steps|
  {
    if steps != [] {
      hide NextAll;
      var s := steps[0];
      NextAllAppend(g, a, b, s.name, s.args);
      TraverseApart(g, NextAll(g, a, s.name, s.args), NextAll(g, b, s.name, s.args), steps[1..]);
    }
  }

  lemma NextOne(g: Graph, t: Traverser, name: string, args: seq<Arg>)
    ensures NextAll(g, [t], name, args) == Next(g, t, name, args)
  {
    hide Next;
    assert [t][1..] == [] && NextAll(g, [], name, args) == [];
    assert Next(g, t, name, args) + [] == Next(g, t, name, args);
  }

  lemma {:induction false} NobodyTraverses(g: Graph, steps: seq<Step>)
    ensures Traverse(g, [], steps) == []
    decreases |steps|
  {
    if steps != [] {
      assert After(g, [], steps[0]) == [];
      NobodyTraverses(g, steps[1..]);
    }
  }

  predicate HasEntry(v: Vertex, key: string, value: Value) {
    if key == "id" then v.id == value else key in v.properties && v.properties[key] == value
  }

  lemma HasTreeNext(g: Graph, v: Vertex, t: Traverser, key: string, value: Value)
    requires t.at == AtVertex(v.id) && VertexIn(g.vertices, v.id) == Some(v)
    ensures var s := HasTree(key, value);
            s.name != "limit" && Next(g, t, s.name, s.args) == KeepIf(HasEntry(v, key, value), t)
  {
    hide VertexIn;
  }

  lemma {:induction false} HasTreesKeep(g: Graph, v: Vertex, t: Traverser, m: Properties)
    requires t.at == AtVertex(v.id) && VertexIn(g.vertices, v.id) == Some(v)
    ensures Traverse(g, [t], HasTrees(m))
         == KeepIf(forall i | 0 <= i < |m| :: HasEntry(v, m[i].0, m[i].1), t)
    decreases |m|
  {
    hide VertexIn, HasEntry, HasTree, Next;
    if m == [] {
      assert HasTrees(m) == [];
    } else {
      var s, rest := HasTree(m[0].0, m[0].1), m[1..];
      assert HasTrees(m) == [s] + HasTrees(rest);
      TraverseAppend(g, [t], [s], HasTrees(rest));
      HasTreeNext(g, v, t, m[0].0, m[0].1);
      TraverseOne(g, [t], s);
      NextOne(g, t, s.name, s.args);
      assert forall i | 1 <= i < |m| :: m[i] == rest[i - 1];
      assert (forall i | 0 <= i < |m| :: HasEntry(v, m[i].0, m[i].1))
             <==> HasEntry(v, m[0].0, m[0].1) && forall i | 0 <= i < |rest| :: HasEntry(v, rest[i].0, rest[i].1);
      hide Traverse;
      if HasEntry(v, m[0].0, m[0].1) { HasTreesKeep(g, v, t, rest); } else { NobodyTraverses(g, HasTrees(rest)); }
    }
  }

  lemma LabelNext(g: Graph, v: Vertex, t: Traverser, name: Value)
    requires t.at == AtVertex(v.id) && VertexIn(g.vertices, v.id) == Some(v)
    ensures Next(g, t, "hasLabel", [Given(name)]) == KeepIf(v.name == name, t)
  {
    hide VertexIn;
  }

  /** The filter of a match lets exactly the matching vertices through. */
  lemma FilterKeeps(g: Graph, v: Vertex, t: Traverser, name: Value, m: Properties)
    requires t.at == AtVertex(v.id) && VertexIn(g.vertices, v.id) == Some(v)
    ensures Traverse(g, [t], [Call1("hasLabel", name)] + HasTrees(m)) == KeepIf(Matches(v, name, m), t)
  {
    var s := Call1("hasLabel", name);
    TraverseAppend(g, [t], [s], HasTrees(m));
    TraverseOne(g, [t], s);
    NextOne(g, t, "hasLabel", [Given(name)]);
    LabelNext(g, v, t, name);
    HasTreesKeep(g, v, t, m);
    NobodyTraverses(g, HasTrees(m));
    hide Traverse, VertexIn, HasTrees, Next, NextAll;
  }

  lemma FilterSteps(name: Value, m: Properties)
    ensures var steps := [Call1("hasLabel", name)] + HasTrees(m);
            forall i | 0 <= i < |steps| :: steps[i].name != "limit" && !Writes(steps[i].name)
  {
    NamesOfSteps();
    hide Writes;
  }

  lemma {:induction false} Found(vs: seq<Vertex>, i: nat)
    requires i < |vs| && forall j | 0 <= j < i :: vs[j].id != vs[i].id
    ensures VertexIn(vs, vs[i].id) == Some(vs[i])
  {
    if i > 0 { Found(vs[1..], i - 1); }
  }

  /** All vertices, filtered, from the one at n on. */
  lemma {:induction false} VerticesFiltered(g: Graph, n: nat, name: Value, m: Properties)
    requires n <= |g.vertices| && DistinctIds(g)
    ensures Traverse(g, AllVertices(g.vertices[n..], START), [Call1("hasLabel", name)] + HasTrees(m))
         == VerticesAt(Matching(g.vertices[n..], name, m))
    decreases |g.vertices| - n
  {
    var steps, vs := [Call1("hasLabel", name)] + HasTrees(m), g.vertices[n..];
    hide Traverse, Matches, HasTrees;
    if n == |g.vertices| {
      assert AllVertices(vs, START) == [];
      NobodyTraverses(g, steps);
    } else {
      var v := g.vertices[n];
      var t := START.(at := AtVertex(v.id));
      assert vs[1..] == g.vertices[n + 1..];
      assert AllVertices(vs, START) == [t] + AllVertices(vs[1..], START);
      FilterSteps(name, m);
      TraverseApart(g, [t], AllVertices(vs[1..], START), steps);
      Found(g.vertices, n);
      FilterKeeps(g, v, t, name, m);
      VerticesFiltered(g, n + 1, name, m);
    }
  }

  lemma MatchTraverses(g: Graph, name: Value, m: Properties)
    requires DistinctIds(g)
    ensures Traverse(g, [START], VertexMatchTree(name, m)) == VerticesAt(Matching(g.vertices, name, m))
  {
    var steps := [Call1("hasLabel", name)] + HasTrees(m);
    assert VertexMatchTree(name, m) == [Call0("V")] + steps;
    TraverseAppend(g, [START], [Call0("V")], steps);
    TraverseOne(g, [START], Call0("V"));
    NextOne(g, START, "V", []);
    VerticesFiltered(g, 0, name, m);
    assert g.vertices[0..] == g.vertices;
    hide Traverse, NextAll, Matching, VerticesAt;
  }

  lemma {:induction false} IdsOfVertices(g: Graph, ids: seq<Value>)
    ensures NextAll(g, VerticesAt(ids), "id", []) == Answers(ids)
  {
    if ids == [] {
      assert VerticesAt(ids) == [] && Answers(ids) == [];
    } else {
      IdsOfVertices(g, ids[1..]);
      assert VerticesAt(ids)[1..] == VerticesAt(ids[1..]);
      assert Answers(ids) == [START.(at := Plain(ids[0]))] + Answers(ids[1..]);
    }
  }

  lemma {:induction false} IdsOfEdges(g: Graph, ids: seq<Value>)
    ensures NextAll(g, EdgesAt(ids), "id", []) == Answers(ids)
  {
    if ids == [] {
      assert EdgesAt(ids) == [] && Answers(ids) == [];
    } else {
      IdsOfEdges(g, ids[1..]);
      assert EdgesAt(ids)[1..] == EdgesAt(ids[1..]);
      assert Answers(ids) == [START.(at := Plain(ids[0]))] + Answers(ids[1..]);
    }
  }

  lemma LimitThenIds(g: Graph, ts: seq<Traverser>)
    ensures Traverse(g, ts, FIRST_TWO_IDS_TREE) == NextAll(g, if |ts| > 2 then ts[..2] else ts, "id", [])
  {
    var a, b := Call1("limit", Integer(2)), Call0("id");
    assert FIRST_TWO_IDS_TREE == [a] + [b];
    TraverseAppend(g, ts, [a], [b]);
    TraverseOne(g, ts, a);
    TraverseOne(g, After(g, ts, a), b);
    hide Traverse, NextAll;
  }

  lemma FirstTwoIds(g: Graph, ids: seq<Value>)
    ensures Traverse(g, VerticesAt(ids), FIRST_TWO_IDS_TREE) == Answers(FirstTwo(ids))
    ensures Traverse(g, EdgesAt(ids), FIRST_TWO_IDS_TREE) == Answers(FirstTwo(ids))
  {
    hide Traverse, NextAll, FIRST_TWO_IDS_TREE;
    LimitThenIds(g, VerticesAt(ids));
    LimitThenIds(g, EdgesAt(ids));
    if |ids| > 2 {
      assert VerticesAt(ids)[..2] == VerticesAt(ids[..2]);
      assert EdgesAt(ids)[..2] == EdgesAt(ids[..2]);
    }
    IdsOfVertices(g, FirstTwo(ids));
    IdsOfEdges(g, FirstTwo(ids));
  }

  lemma MatchReads(name: Value, m: Properties)
    ensures forall i | 0 <= i < |VertexMatchTree(name, m)| :: !Writes(VertexMatchTree(name, m)[i].name)
    ensures forall i | 0 <= i < |FIRST_TWO_IDS_TREE| :: !Writes(FIRST_TWO_IDS_TREE[i].name)
  {
    NamesOfSteps();
    hide Writes;
  }

  /** A vertex match finds the first two of the vertices that match, and changes nothing. */
  lemma VertexMatchFinds(g: Graph, name: Value, m: Properties, newId: Value)
    requires DistinctIds(g)
    ensures Meaning(g, VertexMatchTree(name, m) + FIRST_TWO_IDS_TREE, newId)
         == Done(g, Answers(FirstTwo(Matching(g.vertices, name, m))))
  {
    MatchReads(name, m);
    var steps := VertexMatchTree(name, m) + FIRST_TWO_IDS_TREE;
    hide Writes, VertexMatchTree, Traverse, Execute, Matching, FIRST_TWO_IDS_TREE;
    ReadsOnly(g, [START], steps, newId);
    TraverseAppend(g, [START], VertexMatchTree(name, m), FIRST_TWO_IDS_TREE);
    MatchTraverses(g, name, m);
    FirstTwoIds(g, Matching(g.vertices, name, m));
  }

  // ---- Edge matches ---------------------------------------------------------------------------------------

  function ToMatch(target: Value, m: Properties): Arg {
    Anonymous("inV", [], [Call1("hasLabel", target)] + HasTrees(m))
  }

  /** The edge ends at a vertex that matches. */
  predicate EndsAt(g: Graph, e: Edge, target: Value, m: Properties) {
    VertexIn(g.vertices, e.target).Some? && Matches(VertexIn(g.vertices, e.target).value, target, m)
  }

  lemma {:induction false} VertexInIs(vs: seq<Vertex>, id: Value)
    ensures VertexIn(vs, id).Some? ==> VertexIn(vs, id).value.id == id
  {
    if vs != [] { VertexInIs(vs[1..], id); }
  }

  lemma FilterOfNobody(g: Graph, t: Traverser, id: Value, name: Value, m: Properties)
    requires t.at == AtVertex(id) && VertexIn(g.vertices, id).None?
    ensures Traverse(g, [t], [Call1("hasLabel", name)] + HasTrees(m)) == []
  {
    var s := Call1("hasLabel", name);
    TraverseAppend(g, [t], [s], HasTrees(m));
    TraverseOne(g, [t], s);
    NextOne(g, t, "hasLabel", [Given(name)]);
    assert Next(g, t, "hasLabel", [Given(name)]) == [];
    NobodyTraverses(g, HasTrees(m));
    hide Traverse, VertexIn, HasTrees, Next, NextAll;
  }

  lemma TargetNext(g: Graph, e: Edge, t: Traverser)
    requires t.at == AtEdge(e.id) && EdgeIn(g.edges, e.id) == Some(e)
    ensures Next(g, t, "inV", []) == [t.(at := AtVertex(e.target))]
  {
    hide EdgeIn;
  }

  lemma WhereKeeps(g: Graph, e: Edge, t: Traverser, target: Value, m: Properties)
    requires t.at == AtEdge(e.id) && EdgeIn(g.edges, e.id) == Some(e)
    ensures Next(g, t, "where", [ToMatch(target, m)]) == KeepIf(EndsAt(g, e, target, m), t)
  {
    var steps := [Call1("hasLabel", target)] + HasTrees(m);
    var t' := t.(at := AtVertex(e.target));
    NextOne(g, t, "inV", []);
    TargetNext(g, e, t);
    VertexInIs(g.vertices, e.target);
    if VertexIn(g.vertices, e.target).Some? {
      FilterKeeps(g, VertexIn(g.vertices, e.target).value, t', target, m);
    } else {
      FilterOfNobody(g, t', e.target, target, m);
    }
    hide VertexIn, EdgeIn, Traverse, HasTrees, NextAll, Matches;
    assert Next(g, t, "where", [ToMatch(target, m)])
        == KeepIf(Traverse(g, NextAll(g, [t], "inV", []), steps) != [], t);
  }

  lemma {:induction false} EdgeFound(es: seq<Edge>, i: nat)
    requires i < |es| && forall j | 0 <= j < i :: es[j].id != es[i].id
    ensures EdgeIn(es, es[i].id) == Some(es[i])
  {
    if i > 0 { EdgeFound(es[1..], i - 1); }
  }

  lemma {:induction false} OutEdgesFiltered(g: Graph, n: nat, id: Value, name: Value, target: Value, m: Properties)
    requires n <= |g.edges| && DistinctIds(g)
    ensures NextAll(g, OutEdges(g.edges[n..], id, name, START), "where", [ToMatch(target, m)])
         == EdgesAt(Leading(g, g.edges[n..], id, name, target, m))
    decreases |g.edges| - n
  {
    var args, es := [ToMatch(target, m)], g.edges[n..];
    hide Next, ToMatch, EndsAt;
    EdgesAtOne(id);
    if n == |g.edges| {
      assert es == [] && OutEdges(es, id, name, START) == [] && NextAll(g, [], "where", args) == [];
      assert Leading(g, es, id, name, target, m) == [];
    } else {
      var e := g.edges[n];
      var t := START.(at := AtEdge(e.id));
      assert es[1..] == g.edges[n + 1..];
      OutEdgesFiltered(g, n + 1, id, name, target, m);
      EdgeFound(g.edges, n);
      WhereKeeps(g, e, t, target, m);
      LeadsByEnd(g, e, id, name, target, m);
      if e.source == id && e.name == name {
        assert OutEdges(es, id, name, START) == [t] + OutEdges(es[1..], id, name, START);
        NextAllAppend(g, [t], OutEdges(es[1..], id, name, START), "where", args);
        NextOne(g, t, "where", args);
      } else {
        assert OutEdges(es, id, name, START) == OutEdges(es[1..], id, name, START);
      }
      assert Leading(g, es, id, name, target, m)
          == (if LeadsTo(g, e, id, name, target, m) then [e.id] else []) + Leading(g, es[1..], id, name, target, m);
      hide OutEdges, NextAll, LeadsTo;
      EdgesAtAppend(if LeadsTo(g, e, id, name, target, m) then [e.id] else [],
                    Leading(g, es[1..], id, name, target, m));
      EdgesAtOne(e.id);
    }
  }

  lemma LeadsByEnd(g: Graph, e: Edge, source: Value, name: Value, target: Value, m: Properties)
    ensures LeadsTo(g, e, source, name, target, m)
            <==> e.source == source && e.name == name && EndsAt(g, e, target, m)
  {
    hide VertexIn, Matches;
  }

  lemma EdgesAtAppend(a: seq<Value>, b: seq<Value>)
    ensures EdgesAt(a + b) == EdgesAt(a) + EdgesAt(b)
  {
  }

  lemma EdgesAtOne(id: Value)
    ensures EdgesAt([id]) == [START.(at := AtEdge(id))] && EdgesAt([]) == []
  {
  }

  lemma OutEdgesMoved(es: seq<Edge>, id: Value, name: Value, t: Traverser)
    requires t.tags == START.tags
    ensures OutEdges(es, id, name, t) == OutEdges(es, id, name, START)
  {
    if es != [] { OutEdgesMoved(es[1..], id, name, t); }
  }

  /** From one vertex on. */
  lemma BackTraverses(g: Graph, id: Value, name: Value, target: Value, m: Properties)
    requires DistinctIds(g)
    ensures Traverse(g, [START.(at := AtVertex(id))], EdgeMatchBack(name, ToMatch(target, m)))
         == EdgesAt(Leading(g, g.edges, id, name, target, m))
  {
    var t := START.(at := AtVertex(id));
    var a, b := Call1("outE", name), Step("where", [ToMatch(target, m)]);
    assert EdgeMatchBack(name, ToMatch(target, m)) == [a] + [b];
    TraverseAppend(g, [t], [a], [b]);
    TraverseOne(g, [t], a);
    NextOne(g, t, "outE", [Given(name)]);
    OutNext(g, t, name);
    OutEdgesMoved(g.edges, id, name, t);
    TraverseOne(g, OutEdges(g.edges, id, name, START), b);
    OutEdgesFiltered(g, 0, id, name, target, m);
    assert g.edges[0..] == g.edges;
    hide Traverse, Next, NextAll, After, OutEdges, ToMatch, EdgesAt, Leading;
  }

  lemma OutNext(g: Graph, t: Traverser, name: Value)
    requires t.at.AtVertex?
    ensures Next(g, t, "outE", [Given(name)]) == OutEdges(g.edges, t.at.id, name, t)
  {
  }

  lemma {:induction false} VerticesLead(
    g: Graph, vs: seq<Vertex>, source: Value, sm: Properties, name: Value, target: Value, m: Properties)
    requires DistinctIds(g)
    ensures Traverse(g, VerticesAt(Matching(vs, source, sm)), EdgeMatchBack(name, ToMatch(target, m)))
         == EdgesAt(MatchingEdges(g, vs, source, sm, name, target, m))
    decreases |vs|
  {
    var back := EdgeMatchBack(name, ToMatch(target, m));
    BackIsNoLimit(name, ToMatch(target, m));
    hide Traverse, EdgeMatchBack, Matches, ToMatch, Leading;
    if vs == [] {
      assert VerticesAt([]) == [];
      NobodyTraverses(g, back);
    } else {
      VerticesLead(g, vs[1..], source, sm, name, target, m);
      var here := if Matches(vs[0], source, sm) then [vs[0].id] else [];
      var rest := Matching(vs[1..], source, sm);
      assert VerticesAt(here + rest) == VerticesAt(here) + VerticesAt(rest);
      TraverseApart(g, VerticesAt(here), VerticesAt(rest), back);
      if Matches(vs[0], source, sm) {
        assert VerticesAt(here) == [START.(at := AtVertex(vs[0].id))];
        BackTraverses(g, vs[0].id, name, target, m);
      } else {
        assert VerticesAt(here) == [];
        NobodyTraverses(g, back);
      }
      EdgesAtAppend(if Matches(vs[0], source, sm) then Leading(g, g.edges, vs[0].id, name, target, m) else [],
                    MatchingEdges(g, vs[1..], source, sm, name, target, m));
      EdgesAtOne(vs[0].id);
    }
  }

  lemma BackIsNoLimit(name: Value, where: Arg)
    ensures forall i | 0 <= i < |EdgeMatchBack(name, where)| ::
              EdgeMatchBack(name, where)[i].name != "limit" && !Writes(EdgeMatchBack(name, where)[i].name)
  {
    NamesOfSteps();
    hide Writes;
  }

  lemma EdgeMatchReadsOnly(source: Value, sm: Properties, name: Value, target: Value, m: Properties)
    ensures var steps := EdgeMatchTree(source, sm, name, target, m) + FIRST_TWO_IDS_TREE;
            forall i | 0 <= i < |steps| :: !Writes(steps[i].name)
  {
    MatchReads(source, sm);
    BackIsNoLimit(name, ToMatch(target, m));
    hide Writes, VertexMatchTree, FIRST_TWO_IDS_TREE, EdgeMatchBack;
  }

  /** An edge match finds the first two of the edges that lead from a vertex that matches the source to one
      that matches the target, and changes nothing. */
  lemma EdgeMatchFinds(
    g: Graph, source: Value, sm: Properties, name: Value, target: Value, m: Properties, newId: Value)
    requires DistinctIds(g)
    ensures Meaning(g, EdgeMatchTree(source, sm, name, target, m) + FIRST_TWO_IDS_TREE, newId)
         == Done(g, Answers(FirstTwo(MatchingEdges(g, g.vertices, source, sm, name, target, m))))
  {
    var front, back := VertexMatchTree(source, sm), EdgeMatchBack(name, ToMatch(target, m));
    var tree := EdgeMatchTree(source, sm, name, target, m);
    assert tree == front + back;
    EdgeMatchReadsOnly(source, sm, name, target, m);
    hide Writes, Traverse, Execute, FIRST_TWO_IDS_TREE, EdgeMatchTree, VertexMatchTree, EdgeMatchBack, MatchingEdges,
         Matching, ToMatch, EdgesAt, VerticesAt, Answers;
    ReadsOnly(g, [START], tree + FIRST_TWO_IDS_TREE, newId);
    TraverseAppend(g, [START], tree, FIRST_TWO_IDS_TREE);
    TraverseAppend(g, [START], front, back);
    MatchTraverses(g, source, sm);
    VerticesLead(g, g.vertices, source, sm, name, target, m);
    FirstTwoIds(g, MatchingEdges(g, g.vertices, source, sm, name, target, m));
  }
}
