/** `_normalize` (property_graph.py): vertices get their canonical ids and edges follow them. */
module Normalization {
  import opened Wrappers
  import opened PrimaryKeyIds

  datatype Id = StringId(text: string) | NumberId(n: int)

  /** What a JSON object holds where an id is expected: nothing or null, an id, or something else. */
  datatype Field = Absent | Named(id: Id) | Unusable

  predicate IsValid(f: Field) {
    f.Named? && f.id != StringId("")
  }

  type Properties = map<string, Property>

  datatype Vertex = NotAnObject | Vertex(vertexLabel: Option<string>, id: Field, properties: Option<Properties>)

  /** An object in place of an endpoint id, as older extraction prompts asked for. */
  datatype Legacy = Legacy(vertexLabel: Option<string>, properties: Option<Properties>)

  datatype Endpoint = Endpoint(id: Field, vertexLabel: Option<string>, legacy: Option<Legacy>)

  datatype Edge = NotAnEdge | Edge(outV: Endpoint, inV: Endpoint)

  datatype Graph = Graph(vertices: seq<Vertex>, edges: seq<Edge>)

  type Labels = map<string, VertexLabel>

  /** A vertex label with an id under which a vertex of that label may be mentioned. */
  type Alias = (string, Id)

  // ---- What normalisation computes ----------------------------------------------

  function CanonicalId(labels: Labels, name: Option<string>, properties: Option<Properties>): Option<string> {
    if name.Some? && name.value in labels && properties.Some? then
      PrimaryKeyOf(labels[name.value], properties.value)
    else None
  }

  /** The id the vertex will have; None when normalisation leaves the vertex out. */
  function Target(labels: Labels, v: Vertex): Option<Id> {
    if v.NotAnObject? || v.vertexLabel.None? || v.vertexLabel.value !in labels || v.properties.None? then None
    else
      var canonical := CanonicalId(labels, v.vertexLabel, v.properties);
      if canonical.Some? then
        if canonical.value != "" then Some(StringId(canonical.value)) else None
      else if IsValid(v.id) then Some(v.id.id)
      else None
  }

  /** The aliases of one vertex: its target and, when usable, the id it was given. */
  function AliasesOf(labels: Labels, v: Vertex): seq<(Alias, Id)> {
    var target := Target(labels, v);
    if target.None? then []
    else
      [((v.vertexLabel.value, target.value), target.value)]
      + if IsValid(v.id) then [((v.vertexLabel.value, v.id.id), target.value)] else []
  }

  function AllAliases(labels: Labels, vs: seq<Vertex>): seq<(Alias, Id)> {
    if vs == [] then [] else AllAliases(labels, vs[..|vs| - 1]) + AliasesOf(labels, vs[|vs| - 1])
  }

  function TargetsOf(aliases: seq<(Alias, Id)>, key: Alias): set<Id> {
    set p | p in aliases && p.0 == key :: p.1
  }

  /** The keys of the alias dictionary in the order in which they were first inserted. */
  function KeyOrder(aliases: seq<(Alias, Id)>): (r: seq<Alias>)
    ensures forall k :: k in r <==> exists p :: p in aliases && p.0 == k
  {
    if aliases == [] then []
    else
      var init, last := KeyOrder(aliases[..|aliases| - 1]), aliases[|aliases| - 1];
      assert aliases == aliases[..|aliases| - 1] + [last];
      if last.0 in init then init else init + [last.0]
  }

  function AmbiguousKeys(aliases: seq<(Alias, Id)>, keys: seq<Alias>): (r: seq<Alias>)
    ensures forall k :: k in r <==> k in keys && |TargetsOf(aliases, k)| > 1
  {
    if keys == [] then []
    else
      var init, last := AmbiguousKeys(aliases, keys[..|keys| - 1]), keys[|keys| - 1];
      assert keys == keys[..|keys| - 1] + [last];
      if |TargetsOf(aliases, last)| > 1 then init + [last] else init
  }

  function Issues(labels: Labels, g: Graph): seq<Alias> {
    var aliases := AllAliases(labels, g.vertices);
    AmbiguousKeys(aliases, KeyOrder(aliases))
  }

  function WithTarget(labels: Labels, v: Vertex): Vertex {
    if Target(labels, v).Some? then v.(id := Named(Target(labels, v).value)) else v
  }

  /** The vertex that an endpoint mentions. */
  function Mention(labels: Labels, e: Endpoint): Option<Alias> {
    if e.id.Absent? && e.legacy.Some? then
      var id := CanonicalId(labels, e.legacy.value.vertexLabel, e.legacy.value.properties);
      if id.Some? && id.value != "" then Some((e.legacy.value.vertexLabel.value, StringId(id.value))) else None
    else if e.vertexLabel.Some? && IsValid(e.id) then Some((e.vertexLabel.value, e.id.id))
    else None
  }

  function FirstTarget(aliases: seq<(Alias, Id)>, key: Alias): (r: Option<Id>)
    ensures r.Some? ==> (key, r.value) in aliases
    ensures r.None? ==> forall p | p in aliases :: p.0 != key
  {
    if aliases == [] then None
    else if aliases[0].0 == key then Some(aliases[0].1)
    else FirstTarget(aliases[1..], key)
  }

  function Resolved(labels: Labels, aliases: seq<(Alias, Id)>, e: Endpoint): Endpoint {
    var key := Mention(labels, e);
    if key.None? || FirstTarget(aliases, key.value).None? then e
    else e.(id := Named(FirstTarget(aliases, key.value).value), vertexLabel := Some(key.value.0))
  }

  function ResolvedEdge(labels: Labels, aliases: seq<(Alias, Id)>, e: Edge): Edge {
    if e.NotAnEdge? then e else Edge(Resolved(labels, aliases, e.outV), Resolved(labels, aliases, e.inV))
  }

  function Normalized(labels: Labels, g: Graph): Graph {
    if Issues(labels, g) != [] then g
    else
      var aliases := AllAliases(labels, g.vertices);
      Graph(seq(|g.vertices|, i requires 0 <= i < |g.vertices| => WithTarget(labels, g.vertices[i])),
            seq(|g.edges|, i requires 0 <= i < |g.edges| => ResolvedEdge(labels, aliases, g.edges[i])))
  }

  // ---- The code, in place -----------------------------------------------------------

  type AliasMap = map<Alias, set<Id>>

  ghost predicate Represents(m: AliasMap, order: seq<Alias>, aliases: seq<(Alias, Id)>) {
    && order == KeyOrder(aliases)
    && (forall k :: k in m <==> k in order)
    && (forall k | k in m :: m[k] == TargetsOf(aliases, k))
  }

  /** `aliases.setdefault(key, set()).add(target)`. */
  method AddAlias(m: AliasMap, order: seq<Alias>, key: Alias, target: Id, ghost aliases: seq<(Alias, Id)>)
    returns (m': AliasMap, order': seq<Alias>)
    requires Represents(m, order, aliases)
    ensures Represents(m', order', aliases + [(key, target)])
  {
    m' := m[key := (if key in m then m[key] else {}) + {target}];
    order' := if key in m then order else order + [key];
    ghost var aliases' := aliases + [(key, target)];
    assert aliases'[..|aliases|] == aliases;
    forall k | k in m' ensures m'[k] == TargetsOf(aliases', k) {
      MoreTargets(aliases, key, target, k);
    }
  }

  method AddVertex(labels: Labels, m: AliasMap, order: seq<Alias>, v: Vertex, ghost aliases: seq<(Alias, Id)>)
    returns (m': AliasMap, order': seq<Alias>)
    requires Represents(m, order, aliases)
    ensures Represents(m', order', aliases + AliasesOf(labels, v))
  {
    hide Represents;
    m', order' := m, order;
    var target := Target(labels, v);
    if target.Some? {
      var name, t := v.vertexLabel.value, target.value;
      m', order' := AddAlias(m, order, (name, t), t, aliases);
      if IsValid(v.id) {
        m', order' := AddAlias(m', order', (name, v.id.id), t, aliases + [((name, t), t)]);
        assert aliases + [((name, t), t)] + [((name, v.id.id), t)] == aliases + AliasesOf(labels, v);
      } else {
        assert aliases + [((name, t), t)] == aliases + AliasesOf(labels, v);
      }
    } else {
      assert aliases + AliasesOf(labels, v) == aliases;
    }
  }

  lemma MoreTargets(aliases: seq<(Alias, Id)>, key: Alias, target: Id, k: Alias)
    ensures TargetsOf(aliases + [(key, target)], k)
         == TargetsOf(aliases, k) + if k == key then {target} else {}
    ensures (forall p | p in aliases :: p.0 != k) ==> TargetsOf(aliases, k) == {}
  {
  }

  class PropertyGraph {
    const labels: Labels
    var vertices: seq<Vertex>
    var edges: seq<Edge>

    constructor (labels: Labels, g: Graph)
      ensures this.labels == labels && Value() == g
    {
      this.labels, vertices, edges := labels, g.vertices, g.edges;
    }

    ghost function Value(): Graph
      reads this
    {
      Graph(vertices, edges)
    }

    method CollectAliases() returns (m: AliasMap, order: seq<Alias>, targets: seq<Option<Id>>)
      ensures Represents(m, order, AllAliases(labels, vertices))
      ensures |targets| == |vertices| && forall i | 0 <= i < |vertices| :: targets[i] == Target(labels, vertices[i])
    {
      m, order, targets := map[], [], [];
      for n := 0 to |vertices|
        invariant Represents(m, order, AllAliases(labels, vertices[..n]))
        invariant |targets| == n && forall i | 0 <= i < n :: targets[i] == Target(labels, vertices[i])
      {
        hide Represents, Target;
        assert vertices[..n + 1][..n] == vertices[..n];
        m, order := AddVertex(labels, m, order, vertices[n], AllAliases(labels, vertices[..n]));
        targets := targets + [Target(labels, vertices[n])];
      }
      assert vertices[..|vertices|] == vertices;
    }

    method Resolve(m: AliasMap, e: Endpoint, ghost aliases: seq<(Alias, Id)>) returns (r: Endpoint)
      requires Represents(m, KeyOrder(aliases), aliases)
      requires forall k | k in m :: |m[k]| <= 1
      ensures r == Resolved(labels, aliases, e)
    {
      var key := Mention(labels, e);
      if key.None? || key.value !in m { return e; }
      var matches := m[key.value];
      var first := FirstTarget(aliases, key.value).value;
      assert (key.value, first) in aliases && first in matches;
      var target :| target in matches;
      OnlyMember(matches, target, first);
      r := e.(id := Named(target), vertexLabel := Some(key.value.0));
    }

    method UpdateIds(targets: seq<Option<Id>>)
      requires |targets| == |vertices| && forall i | 0 <= i < |vertices| :: targets[i] == Target(labels, vertices[i])
      modifies this`vertices
      ensures |vertices| == |old(vertices)|
      ensures forall i | 0 <= i < |vertices| :: vertices[i] == WithTarget(labels, old(vertices)[i])
    {
      for n := 0 to |vertices|
        invariant |vertices| == |old(vertices)|
        invariant forall i | 0 <= i < n :: vertices[i] == WithTarget(labels, old(vertices)[i])
        invariant forall i | n <= i < |vertices| :: vertices[i] == old(vertices)[i]
      {
        if targets[n].Some? {
          vertices := vertices[n := vertices[n].(id := Named(targets[n].value))];
        }
      }
    }

    method ResolveEdges(m: AliasMap, ghost aliases: seq<(Alias, Id)>)
      requires Represents(m, KeyOrder(aliases), aliases) && forall k | k in m :: |m[k]| <= 1
      modifies this`edges
      ensures |edges| == |old(edges)|
      ensures forall i | 0 <= i < |edges| :: edges[i] == ResolvedEdge(labels, aliases, old(edges)[i])
    {
      hide Represents, KeyOrder, Resolved;
      for n := 0 to |edges|
        invariant |edges| == |old(edges)|
        invariant forall i | 0 <= i < n :: edges[i] == ResolvedEdge(labels, aliases, old(edges)[i])
        invariant forall i | n <= i < |edges| :: edges[i] == old(edges)[i]
      {
        if edges[n].Edge? {
          var outV := Resolve(m, edges[n].outV, aliases);
          var inV := Resolve(m, edges[n].inV, aliases);
          edges := edges[n := Edge(outV, inV)];
        }
      }
    }

    /** `_normalize`. */
    method Normalize() returns (issues: seq<Alias>)
      modifies this
      ensures issues == old(Issues(labels, Value())) && Value() == old(Normalized(labels, Value()))
    {
      hide AllAliases, WithTarget, ResolvedEdge, Normalized;
      var m, order, targets := CollectAliases();
      ghost var aliases := AllAliases(labels, vertices);
      issues := FindAmbiguous(m, order, aliases);
      if issues != [] {
        AmbiguousIsKept(labels, Value());
        return;
      }
      UpdateIds(targets);
      assert forall k | k in m :: k !in issues && k in order;
      ResolveEdges(m, aliases);
      NormalizedIs(labels, old(Value()), Value());
    }
  }

  lemma AmbiguousIsKept(labels: Labels, g: Graph)
    requires Issues(labels, g) != []
    ensures Normalized(labels, g) == g
  {
  }

  lemma NormalizedIs(labels: Labels, g: Graph, g': Graph)
    requires Issues(labels, g) == [] && |g'.vertices| == |g.vertices| && |g'.edges| == |g.edges|
    requires forall i | 0 <= i < |g.vertices| :: g'.vertices[i] == WithTarget(labels, g.vertices[i])
    requires forall i | 0 <= i < |g.edges| ::
               g'.edges[i] == ResolvedEdge(labels, AllAliases(labels, g.vertices), g.edges[i])
    ensures Normalized(labels, g) == g'
  {
    hide AllAliases, WithTarget, ResolvedEdge, Issues;
    var n := Normalized(labels, g);
    assert g'.vertices == n.vertices;
    assert g'.edges == n.edges;
  }

  method FindAmbiguous(m: AliasMap, order: seq<Alias>, ghost aliases: seq<(Alias, Id)>) returns (issues: seq<Alias>)
    requires Represents(m, order, aliases)
    ensures issues == AmbiguousKeys(aliases, order)
  {
    issues := [];
    for n := 0 to |order|
      invariant issues == AmbiguousKeys(aliases, order[..n])
    {
      assert order[..n + 1][..n] == order[..n];
      if |m[order[n]]| > 1 { issues := issues + [order[n]]; }
    }
    assert order[..|order|] == order;
  }

  lemma OnlyMember<T>(s: set<T>, x: T, y: T)
    requires x in s && y in s && |s| <= 1
    ensures x == y
  {
    if x != y {
      assert {x, y} <= s;
      CardinalityLe({x, y}, s);
    }
  }

  lemma {:induction false} CardinalityLe<T>(a: set<T>, b: set<T>)
    requires a <= b
    ensures |a| <= |b|
  {
    if a != {} {
      var x :| x in a;
      CardinalityLe(a - {x}, b - {x});
    }
  }
}
