/** What the printed traversals do to a graph. */
module GremlinMeaning {
  import opened Wrappers
  import opened GremlinPrinter
  import opened GremlinSyntax

  // ---- Graphs ----------------------------------------------------------------------------------

  type Labelled = map<string, Value>

  datatype Vertex = Vertex(id: Value, name: Value, properties: Labelled)

  datatype Edge = Edge(id: Value, name: Value, source: Value, target: Value, properties: Labelled)

  datatype Graph = Graph(vertices: seq<Vertex>, edges: seq<Edge>)

  function VertexIn(vs: seq<Vertex>, id: Value): Option<Vertex> {
    if vs == [] then None else if vs[0].id == id then Some(vs[0]) else VertexIn(vs[1..], id)
  }

  function EdgeIn(es: seq<Edge>, id: Value): Option<Edge> {
    if es == [] then None else if es[0].id == id then Some(es[0]) else EdgeIn(es[1..], id)
  }

  predicate DistinctIds(g: Graph) {
    && (forall i, j | 0 <= i < j < |g.vertices| :: g.vertices[i].id != g.vertices[j].id)
    && (forall i, j | 0 <= i < j < |g.edges| :: g.edges[i].id != g.edges[j].id)
  }

  predicate Incident(e: Edge, id: Value) {
    e.source == id || e.target == id
  }

  // ---- Steps that read ----------------------------------------------------------------------------

  /** Where a traverser is: at the source `g`, at an element, or at a plain value. */
  datatype Place = Source | AtVertex(id: Value) | AtEdge(id: Value) | Plain(value: Value)

  datatype Traverser = Traverser(at: Place, tags: map<string, Place>)

  function NameAt(g: Graph, p: Place): Option<Value> {
    match p
    case AtVertex(id) => var v := VertexIn(g.vertices, id); if v.Some? then Some(v.value.name) else None
    case AtEdge(id) => var e := EdgeIn(g.edges, id); if e.Some? then Some(e.value.name) else None
    case _ => None
  }

  function PropertiesAt(g: Graph, p: Place): Labelled {
    match p
    case AtVertex(id) => var v := VertexIn(g.vertices, id); if v.Some? then v.value.properties else map[]
    case AtEdge(id) => var e := EdgeIn(g.edges, id); if e.Some? then e.value.properties else map[]
    case _ => map[]
  }

  function AllVertices(vs: seq<Vertex>, t: Traverser): seq<Traverser> {
    seq(|vs|, i requires 0 <= i < |vs| => t.(at := AtVertex(vs[i].id)))
  }

  /** Along the edges of that name that start at the vertex. */
  function OutEdges(es: seq<Edge>, id: Value, name: Value, t: Traverser): seq<Traverser> {
    if es == [] then []
    else
      (if es[0].source == id && es[0].name == name then [t.(at := AtEdge(es[0].id))] else [])
      + OutEdges(es[1..], id, name, t)
  }

  function IncidentEdges(es: seq<Edge>, id: Value, t: Traverser): seq<Traverser> {
    if es == [] then []
    else (if Incident(es[0], id) then [t.(at := AtEdge(es[0].id))] else []) + IncidentEdges(es[1..], id, t)
  }

  function KeepIf(keep: bool, t: Traverser): seq<Traverser> {
    if keep then [t] else []
  }

  /** Where one traverser goes in the reading step `name(args)`; nowhere if there is no such step. */
  function Next(g: Graph, t: Traverser, name: string, args: seq<Arg>): seq<Traverser>
    decreases args, 0
  {
    if args == [] then NextPlain(g, t, name)
    else if |args| == 1 && args[0].Given? then NextWith(g, t, name, args[0].value)
    else if |args| == 1 && args[0].Anonymous? then
      var found := Traverse(g, NextAll(g, [t], args[0].name, args[0].args), args[0].rest);
      if name == "where" then KeepIf(found != [], t)
      else if name == "not" then KeepIf(found == [], t)
      else []
    else if |args| == 2 && name == "has" && args[0].Given? && args[0].value.Text? && args[1].Given? then
      var properties, key := PropertiesAt(g, t.at), args[0].value.s;
      KeepIf(key in properties && properties[key] == args[1].value, t)
    else []
  }

  function NextPlain(g: Graph, t: Traverser, name: string): seq<Traverser> {
    if name == "V" then AllVertices(g.vertices, t)
    else if name == "inV" then
      if t.at.AtEdge? && EdgeIn(g.edges, t.at.id).Some? then
        [t.(at := AtVertex(EdgeIn(g.edges, t.at.id).value.target))]
      else []
    else if name == "bothE" then if t.at.AtVertex? then IncidentEdges(g.edges, t.at.id, t) else []
    else if name == "id" then
      if t.at.AtVertex? || t.at.AtEdge? then [t.(at := Plain(t.at.id))] else []
    else []
  }

  function NextWith(g: Graph, t: Traverser, name: string, v: Value): seq<Traverser> {
    if name == "V" then if VertexIn(g.vertices, v).Some? then [t.(at := AtVertex(v))] else []
    else if name == "E" then if EdgeIn(g.edges, v).Some? then [t.(at := AtEdge(v))] else []
    else if name == "hasLabel" then KeepIf(NameAt(g, t.at) == Some(v), t)
    else if name == "hasId" then KeepIf((t.at.AtVertex? || t.at.AtEdge?) && t.at.id == v, t)
    else if name == "outE" then if t.at.AtVertex? then OutEdges(g.edges, t.at.id, v, t) else []
    else if name == "as" && v.Text? then [t.(tags := t.tags[v.s := t.at])]
    else []
  }

  function NextAll(g: Graph, ts: seq<Traverser>, name: string, args: seq<Arg>): seq<Traverser>
    decreases args, 1, |ts|
  {
    if ts == [] then [] else Next(g, ts[0], name, args) + NextAll(g, ts[1..], name, args)
  }

  function After(g: Graph, ts: seq<Traverser>, s: Step): seq<Traverser>
    decreases s
  {
    if s.name == "limit" && |s.args| == 1 && s.args[0].Given? && s.args[0].value.Integer? then
      if 0 <= s.args[0].value.n < |ts| then ts[..s.args[0].value.n] else ts
    else NextAll(g, ts, s.name, s.args)
  }

  function Traverse(g: Graph, ts: seq<Traverser>, steps: seq<Step>): seq<Traverser>
    decreases steps
  {
    if steps == [] then ts else Traverse(g, After(g, ts, steps[0]), steps[1..])
  }

  // ---- Steps that write ---------------------------------------------------------------------------

  datatype Outcome = Failed | Done(graph: Graph, traversers: seq<Traverser>)

  function ChangeVertex(vs: seq<Vertex>, id: Value, v: Vertex): seq<Vertex> {
    seq(|vs|, i requires 0 <= i < |vs| => if vs[i].id == id then v else vs[i])
  }

  function ChangeEdge(es: seq<Edge>, id: Value, e: Edge): seq<Edge> {
    seq(|es|, i requires 0 <= i < |es| => if es[i].id == id then e else es[i])
  }

  /** A new vertex, which has the server's next id until it is given one. */
  function AddVertex(g: Graph, t: Traverser, name: Value, newId: Value): Outcome {
    if t.at.Source? && VertexIn(g.vertices, newId).None? then
      Done(g.(vertices := g.vertices + [Vertex(newId, name, map[])]), [t.(at := AtVertex(newId))])
    else Failed
  }

  /** A new edge, from and to the vertex unless told otherwise. */
  function AddEdge(g: Graph, t: Traverser, name: Value, newId: Value): Outcome {
    if t.at.AtVertex? && EdgeIn(g.edges, newId).None? then
      Done(g.(edges := g.edges + [Edge(newId, name, t.at.id, t.at.id, map[])]), [t.(at := AtEdge(newId))])
    else Failed
  }

  /** The edge starts at the vertex that was marked. */
  function FromMark(g: Graph, t: Traverser, mark: string): Outcome {
    if t.at.AtEdge? && EdgeIn(g.edges, t.at.id).Some? && mark in t.tags && t.tags[mark].AtVertex? then
      var e := EdgeIn(g.edges, t.at.id).value;
      Done(g.(edges := ChangeEdge(g.edges, t.at.id, e.(source := t.tags[mark].id))), [t])
    else Failed
  }

  function SetProperty(g: Graph, t: Traverser, key: string, v: Value): Outcome {
    if t.at.AtVertex? && VertexIn(g.vertices, t.at.id).Some? then
      var was := VertexIn(g.vertices, t.at.id).value;
      var changed := was.(properties := was.properties[key := v]);
      Done(g.(vertices := ChangeVertex(g.vertices, t.at.id, changed)), [t])
    else if t.at.AtEdge? && EdgeIn(g.edges, t.at.id).Some? then
      var was := EdgeIn(g.edges, t.at.id).value;
      Done(g.(edges := ChangeEdge(g.edges, t.at.id, was.(properties := was.properties[key := v]))), [t])
    else Failed
  }

  /** `property(T.id, v)`: no two vertices have one id. */
  function SetId(g: Graph, t: Traverser, v: Value): Outcome {
    if t.at.AtVertex? && VertexIn(g.vertices, t.at.id).Some? && VertexIn(g.vertices, v).None? then
      var was := VertexIn(g.vertices, t.at.id).value;
      Done(g.(vertices := ChangeVertex(g.vertices, t.at.id, was.(id := v))), [t.(at := AtVertex(v))])
    else Failed
  }

  function WithoutVertex(vs: seq<Vertex>, id: Value): seq<Vertex> {
    if vs == [] then [] else (if vs[0].id == id then [] else [vs[0]]) + WithoutVertex(vs[1..], id)
  }

  function WithoutIncident(es: seq<Edge>, id: Value): seq<Edge> {
    if es == [] then [] else (if Incident(es[0], id) then [] else [es[0]]) + WithoutIncident(es[1..], id)
  }

  function WithoutEdge(es: seq<Edge>, id: Value): seq<Edge> {
    if es == [] then [] else (if es[0].id == id then [] else [es[0]]) + WithoutEdge(es[1..], id)
  }

  /** A vertex goes with all its edges. */
  function Drop(g: Graph, t: Traverser): Outcome {
    match t.at
    case AtVertex(id) => Done(Graph(WithoutVertex(g.vertices, id), WithoutIncident(g.edges, id)), [])
    case AtEdge(id) => Done(g.(edges := WithoutEdge(g.edges, id)), [])
    case _ => Failed
  }

  predicate Writes(name: string) {
    name in {"addV", "addE", "from", "property", "drop"}
  }

  /** What a writing step does for one traverser. */
  function Effect(g: Graph, t: Traverser, s: Step, newId: Value): Outcome {
    if s.name == "drop" && s.args == [] then Drop(g, t)
    else if |s.args| == 1 && s.args[0].Given? then
      var v := s.args[0].value;
      if s.name == "addV" then AddVertex(g, t, v, newId)
      else if s.name == "addE" then AddEdge(g, t, v, newId)
      else if s.name == "from" && v.Text? then FromMark(g, t, v.s)
      else Failed
    else if |s.args| == 2 && s.name == "property" && s.args[1].Given? then
      if s.args[0] == Member("T", "id") then SetId(g, t, s.args[1].value)
      else if s.args[0].Given? && s.args[0].value.Text? then SetProperty(g, t, s.args[0].value.s, s.args[1].value)
      else Failed
    else Failed
  }

  function EffectAll(g: Graph, ts: seq<Traverser>, s: Step, newId: Value): Outcome
    decreases |ts|
  {
    if ts == [] then Done(g, [])
    else
      var one := Effect(g, ts[0], s, newId);
      if one.Failed? then Failed
      else
        var rest := EffectAll(one.graph, ts[1..], s, newId);
        if rest.Failed? then Failed else Done(rest.graph, one.traversers + rest.traversers)
  }

  function Execute(g: Graph, ts: seq<Traverser>, steps: seq<Step>, newId: Value): Outcome
    decreases |steps|
  {
    if steps == [] then Done(g, ts)
    else if Writes(steps[0].name) then
      var o := EffectAll(g, ts, steps[0], newId);
      if o.Failed? then Failed else Execute(o.graph, o.traversers, steps[1..], newId)
    else Execute(g, After(g, ts, steps[0]), steps[1..], newId)
  }

  const START: Traverser := Traverser(Source, map[])

  /** What the traversal `g` followed by the steps does to the graph, and where it ends up. `newId` is the id
      that the server gives to an element that is added without one. */
  function Meaning(g: Graph, steps: seq<Step>, newId: Value): Outcome {
    Execute(g, [START], steps, newId)
  }
}
