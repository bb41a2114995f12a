/** What normalisation keeps, on every graph. */
module NormalizationTheorems {
  import opened Wrappers
  import opened PrimaryKeyIds
  import opened Normalization

  lemma {:induction false} AliasFromVertex(labels: Labels, vs: seq<Vertex>, p: (Alias, Id)) returns (i: nat)
    requires p in AllAliases(labels, vs)
    ensures i < |vs| && p in AliasesOf(labels, vs[i])
  {
    hide AliasesOf;
    var n := |vs| - 1;
    if p in AliasesOf(labels, vs[n]) { i := n; } else { i := AliasFromVertex(labels, vs[..n], p); }
  }

  lemma {:induction false} VertexHasAliases(labels: Labels, vs: seq<Vertex>, i: nat, p: (Alias, Id))
    requires i < |vs| && p in AliasesOf(labels, vs[i])
    ensures p in AllAliases(labels, vs)
  {
    hide AliasesOf;
    var n := |vs| - 1;
    if i < n { VertexHasAliases(labels, vs[..n], i, p); }
  }

  /** Two different vertices of one label, mentioned by the same id, get different ids. */
  ghost predicate IsAmbiguous(labels: Labels, vs: seq<Vertex>) {
    exists p, q :: p in AllAliases(labels, vs) && q in AllAliases(labels, vs) && p.0 == q.0 && p.1 != q.1
  }

  lemma TwoTargets(aliases: seq<(Alias, Id)>, p: (Alias, Id), q: (Alias, Id))
    requires p in aliases && q in aliases && p.0 == q.0 && p.1 != q.1
    ensures |TargetsOf(aliases, p.0)| > 1
  {
    var s := TargetsOf(aliases, p.0);
    assert {p.1, q.1} <= s;
    CardinalityLe({p.1, q.1}, s);
  }

  lemma TwoMembers<T>(s: set<T>) returns (x: T, y: T)
    requires |s| > 1
    ensures x in s && y in s && x != y
  {
    x :| x in s;
    var rest := s - {x};
    assert |rest| == |s| - 1;
    y :| y in rest;
  }

  /** The reported keys are exactly the mentions that could mean two vertices. */
  lemma IssuesMeanAmbiguity(labels: Labels, g: Graph)
    ensures Issues(labels, g) != [] <==> IsAmbiguous(labels, g.vertices)
  {
    hide AllAliases, KeyOrder, AmbiguousKeys;
    var aliases := AllAliases(labels, g.vertices);
    if Issues(labels, g) != [] {
      var k := Issues(labels, g)[0];
      assert k in Issues(labels, g);
      var t, u := TwoMembers(TargetsOf(aliases, k));
      assert (k, t) in aliases && (k, u) in aliases;
    }
    if IsAmbiguous(labels, g.vertices) {
      var p, q :| p in aliases && q in aliases && p.0 == q.0 && p.1 != q.1;
      TwoTargets(aliases, p, q);
      assert p.0 in KeyOrder(aliases);
      assert p.0 in Issues(labels, g);
    }
  }

  /** On an ambiguous mention nothing is changed, so the next round reports the same again. */
  lemma AmbiguityIsKept(labels: Labels, g: Graph)
    requires IsAmbiguous(labels, g.vertices)
    ensures Normalized(labels, g) == g && Issues(labels, Normalized(labels, g)) == Issues(labels, g) != []
  {
    IssuesMeanAmbiguity(labels, g);
  }

  // ---- The second round ------------------------------------------------------------

  lemma AliasesOfTarget(labels: Labels, v: Vertex)
    ensures Target(labels, WithTarget(labels, v)) == Target(labels, v)
    ensures forall p | p in AliasesOf(labels, WithTarget(labels, v)) ::
              p.0.1 == p.1 && p in AliasesOf(labels, v)
    ensures forall p | p in AliasesOf(labels, v) :: ((p.0.0, p.1), p.1) in AliasesOf(labels, WithTarget(labels, v))
  {
  }

  /** After normalisation every alias is a canonical id, and all canonical ids still are aliases. */
  lemma AliasesAfter(labels: Labels, g: Graph)
    requires Issues(labels, g) == []
    ensures var before := AllAliases(labels, g.vertices);
            var after := AllAliases(labels, Normalized(labels, g).vertices);
            && (forall p | p in after :: p.0.1 == p.1 && p in before)
            && (forall p | p in before :: ((p.0.0, p.1), p.1) in after)
  {
    var vs, vs' := g.vertices, Normalized(labels, g).vertices;
    forall p | p in AllAliases(labels, vs') ensures p.0.1 == p.1 && p in AllAliases(labels, vs) {
      var i := AliasFromVertex(labels, vs', p);
      AliasesOfTarget(labels, vs[i]);
      VertexHasAliases(labels, vs, i, p);
    }
    forall p | p in AllAliases(labels, vs) ensures ((p.0.0, p.1), p.1) in AllAliases(labels, vs') {
      var i := AliasFromVertex(labels, vs, p);
      AliasesOfTarget(labels, vs[i]);
      VertexHasAliases(labels, vs', i, ((p.0.0, p.1), p.1));
    }
  }

  /** Resolving an endpoint again, against the aliases of the second round, changes nothing. */
  lemma ResolveTwice(
    labels: Labels, before: seq<(Alias, Id)>, after: seq<(Alias, Id)>, e: Endpoint)
    requires forall p | p in after :: p.0.1 == p.1 && p in before
    requires forall p | p in before :: ((p.0.0, p.1), p.1) in after && p.1 != StringId("")
    ensures Resolved(labels, after, Resolved(labels, before, e)) == Resolved(labels, before, e)
  {
    var key := Mention(labels, e);
    if key.Some? {
      var target := FirstTarget(before, key.value);
      if target.Some? {
        var e' := Resolved(labels, before, e);
        assert Mention(labels, e') == Some((key.value.0, target.value));
        assert ((key.value.0, target.value), target.value) in after;
      }
    }
  }

  lemma TargetsAreValid(labels: Labels, vs: seq<Vertex>)
    ensures forall p | p in AllAliases(labels, vs) :: p.1 != StringId("")
  {
    forall p | p in AllAliases(labels, vs) ensures p.1 != StringId("") {
      var i := AliasFromVertex(labels, vs, p);
    }
  }

  /** Normalisation is idempotent, and its issues are stable. */
  lemma NormalizeIsIdempotent(labels: Labels, g: Graph)
    ensures Normalized(labels, Normalized(labels, g)) == Normalized(labels, g)
    ensures Issues(labels, Normalized(labels, g)) == Issues(labels, g)
  {
    hide Target, AliasesOf, Resolved;
    if Issues(labels, g) == [] {
      var g' := Normalized(labels, g);
      AliasesAfter(labels, g);
      IssuesMeanAmbiguity(labels, g');
      TargetsAreValid(labels, g.vertices);
      var before, after := AllAliases(labels, g.vertices), AllAliases(labels, g'.vertices);
      forall i | 0 <= i < |g.vertices| ensures WithTarget(labels, g'.vertices[i]) == g'.vertices[i] {
        AliasesOfTarget(labels, g.vertices[i]);
      }
      forall i | 0 <= i < |g.edges| ensures ResolvedEdge(labels, after, g'.edges[i]) == g'.edges[i] {
        if g.edges[i].Edge? {
          ResolveTwice(labels, before, after, g.edges[i].outV);
          ResolveTwice(labels, before, after, g.edges[i].inV);
        }
      }
      assert Normalized(labels, g').vertices == g'.vertices;
      assert Normalized(labels, g').edges == g'.edges;
    }
  }

  // ---- Where the edges end up ---------------------------------------------------------

  /** The id under which an endpoint with this label means a vertex: as given, or the primary key of the
      legacy object that stands in for it. */
  predicate Names(labels: Labels, e: Endpoint, name: string, id: Id) {
    if e.id.Absent? && e.legacy.Some? then
      && e.legacy.value.vertexLabel == Some(name) && name in labels && e.legacy.value.properties.Some?
      && id != StringId("") && id.StringId?
      && PrimaryKeyOf(labels[name], e.legacy.value.properties.value) == Some(id.text)
    else
      e.vertexLabel == Some(name) && e.id == Named(id) && id != StringId("")
  }

  lemma NamesIsMention(labels: Labels, e: Endpoint, name: string, id: Id)
    ensures Names(labels, e, name, id) <==> Mention(labels, e) == Some((name, id))
  {
  }

  /** The endpoint means the vertex: it has its label, and the id the vertex was given or the one it gets. */
  ghost predicate Means(labels: Labels, e: Endpoint, v: Vertex, v': Vertex) {
    && v.Vertex? && v'.Vertex? && v.vertexLabel.Some? && Target(labels, v).Some?
    && exists id :: Names(labels, e, v.vertexLabel.value, id) && (v.id == Named(id) || v'.id == Named(id))
  }

  /** It names the new id of every vertex it means, under that vertex's label; if it means none, nothing changed. */
  ghost predicate Follows(labels: Labels, g: Graph, g': Graph, e: Endpoint, e': Endpoint) {
    && |g'.vertices| == |g.vertices|
    && e'.legacy == e.legacy
    && (forall i | 0 <= i < |g.vertices| && Means(labels, e, g.vertices[i], g'.vertices[i]) ::
          e'.id == g'.vertices[i].id && e'.vertexLabel == g.vertices[i].vertexLabel)
    && ((forall i | 0 <= i < |g.vertices| :: !Means(labels, e, g.vertices[i], g'.vertices[i])) ==> e' == e)
  }

  lemma MeantIsAlias(labels: Labels, e: Endpoint, v: Vertex)
    requires Means(labels, e, v, WithTarget(labels, v))
    ensures v.Vertex? && WithTarget(labels, v).Vertex? && Mention(labels, e).Some?
    ensures (Mention(labels, e).value, Target(labels, v).value) in AliasesOf(labels, v)
    ensures Mention(labels, e).value.0 == v.vertexLabel.value
  {
    var id :| Names(labels, e, v.vertexLabel.value, id)
              && (v.id == Named(id) || WithTarget(labels, v).id == Named(id));
    NamesIsMention(labels, e, v.vertexLabel.value, id);
    var aliases := AliasesOf(labels, v);
    assert aliases[0] in aliases;
    if v.id == Named(id) && IsValid(v.id) { assert aliases[1] in aliases; }
  }

  lemma AliasIsMeant(labels: Labels, e: Endpoint, v: Vertex, target: Id)
    requires Mention(labels, e).Some? && (Mention(labels, e).value, target) in AliasesOf(labels, v)
    ensures Means(labels, e, v, WithTarget(labels, v))
  {
    var (name, id) := Mention(labels, e).value;
    NamesIsMention(labels, e, name, id);
  }

  /** Without ambiguity, an endpoint that means a vertex follows it. */
  lemma EndpointFollows(labels: Labels, g: Graph, e: Endpoint)
    requires !IsAmbiguous(labels, g.vertices)
    ensures Follows(labels, g, Normalized(labels, g), e, Resolved(labels, AllAliases(labels, g.vertices), e))
  {
    hide Target, Mention, AllAliases, Means, WithTarget;
    IssuesMeanAmbiguity(labels, g);
    var aliases, g' := AllAliases(labels, g.vertices), Normalized(labels, g);
    var e' := Resolved(labels, aliases, e);
    forall i | 0 <= i < |g.vertices| && Means(labels, e, g.vertices[i], g'.vertices[i])
      ensures g.vertices[i].Vertex? && g'.vertices[i].Vertex?
      ensures e'.id == g'.vertices[i].id && e'.vertexLabel == g.vertices[i].vertexLabel
    {
      MeantIsAlias(labels, e, g.vertices[i]);
      VertexLabelled(labels, g.vertices[i]);
      VertexHasAliases(labels, g.vertices, i, (Mention(labels, e).value, Target(labels, g.vertices[i]).value));
      TargetIsId(labels, g.vertices[i]);
    }
    if e' != e {
      var key := Mention(labels, e).value;
      var i := AliasFromVertex(labels, g.vertices, (key, FirstTarget(aliases, key).value));
      AliasIsMeant(labels, e, g.vertices[i], FirstTarget(aliases, key).value);
    }
  }

  lemma TargetIsId(labels: Labels, v: Vertex)
    requires Target(labels, v).Some?
    ensures WithTarget(labels, v).id == Named(Target(labels, v).value)
  {
  }

  /** Without ambiguity, the edges keep their number and order, and both endpoints of every edge follow
      the vertices they mean. */
  lemma EdgesFollowTheirVertices(labels: Labels, g: Graph)
    requires !IsAmbiguous(labels, g.vertices)
    ensures var g' := Normalized(labels, g);
            && |g'.edges| == |g.edges|
            && forall i | 0 <= i < |g.edges| ::
                 && g'.edges[i].Edge? == g.edges[i].Edge?
                 && (g.edges[i].Edge? ==>
                       && Follows(labels, g, g', g.edges[i].outV, g'.edges[i].outV)
                       && Follows(labels, g, g', g.edges[i].inV, g'.edges[i].inV))
  {
    hide Follows, AllAliases, Resolved, WithTarget;
    IssuesMeanAmbiguity(labels, g);
    forall i | 0 <= i < |g.edges| && g.edges[i].Edge?
      ensures Follows(labels, g, Normalized(labels, g), g.edges[i].outV, Normalized(labels, g).edges[i].outV)
      ensures Follows(labels, g, Normalized(labels, g), g.edges[i].inV, Normalized(labels, g).edges[i].inV)
    {
      EndpointFollows(labels, g, g.edges[i].outV);
      EndpointFollows(labels, g, g.edges[i].inV);
    }
  }

  lemma VertexLabelled(labels: Labels, v: Vertex)
    ensures Target(labels, v).Some? ==> v.Vertex? && v.vertexLabel.Some?
  {
  }

  /** The vertex ids that edges follow really are the primary-key ids, wherever the schema has one. */
  lemma VerticesGetTheirPrimaryKey(labels: Labels, g: Graph, i: nat)
    requires !IsAmbiguous(labels, g.vertices) && i < |g.vertices|
    requires g.vertices[i].Vertex? && g.vertices[i].vertexLabel.Some? && g.vertices[i].vertexLabel.value in labels
    requires g.vertices[i].properties.Some?
    ensures var v, v' := g.vertices[i], Normalized(labels, g).vertices[i];
            var key := PrimaryKeyOf(labels[v.vertexLabel.value], v.properties.value);
            && v'.vertexLabel == v.vertexLabel && v'.properties == v.properties
            && v'.id == if key.Some? then Named(StringId(key.value)) else v.id
  {
    IssuesMeanAmbiguity(labels, g);
    IdIsNotEmpty(labels[g.vertices[i].vertexLabel.value], g.vertices[i].properties.value);
  }
}
