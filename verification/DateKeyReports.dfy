/** Which reports the primary-key check makes: about which vertex, which key, and in which order. */
module DateKeyReports {
  import opened DateKeys

  /** The two vertices are told apart by nothing but DATE keys that may coincide. */
  predicate MayCoincide(v: Vertex, w: Vertex) {
    && IsDated(v) && IsDated(w) && v.vertexLabel == w.vertexLabel
    && PlainsOf(Identities(v.keys.value)) == PlainsOf(Identities(w.keys.value))
    && |VertexDates(v)| == |VertexDates(w)| && Clash(VertexDates(v), VertexDates(w))
  }

  /** The first DATE key that the two write in different representations. */
  predicate DiffersFirstAt(v: Vertex, w: Vertex, k: nat) {
    && IsDated(v) && IsDated(w) && k < |VertexDates(v)| == |VertexDates(w)|
    && IsMixed(VertexDates(v)[k], VertexDates(w)[k])
    && forall j | 0 <= j < k :: !IsMixed(VertexDates(v)[j], VertexDates(w)[j])
  }

  /** Vertex m is the first that vertex n may coincide with. */
  predicate FirstToCoincide(vs: seq<Vertex>, n: nat, m: nat) {
    m < n < |vs| && MayCoincide(vs[n], vs[m]) && forall j | 0 <= j < m :: !MayCoincide(vs[n], vs[j])
  }

  lemma {:induction false} ClashBehind(dates: seq<KeyIdentity>, previous: seq<seq<KeyIdentity>>, last: seq<KeyIdentity>)
    requires Comparable(dates, previous + [last])
    ensures Comparable(dates, previous)
    ensures var k := FirstClash(dates, previous);
            FirstClash(dates, previous + [last])
            == if k < |previous| then k else if Clash(dates, last) then |previous| else |previous| + 1
    decreases |previous|
  {
    assert forall p | p in previous :: p in previous + [last];
    assert last in previous + [last];
    if previous == [] {
      assert (previous + [last])[1..] == [];
    } else {
      assert (previous + [last])[1..] == previous[1..] + [last];
      hide Clash;
      if !Clash(dates, previous[0]) { ClashBehind(dates, previous[1..], last); }
    }
  }

  /** Entry k of the dictionary's list is the first vertex that v may coincide with, if there is one. */
  ghost predicate Tells(v: Vertex, vs: seq<Vertex>, previous: seq<seq<KeyIdentity>>, k: nat) {
    && k <= |previous|
    && if k < |previous| then
         exists m: nat :: m < |vs| && IsDated(vs[m]) && IsFirst(v, vs, m) && previous[k] == VertexDates(vs[m])
       else forall m: nat | m < |vs| :: !MayCoincide(v, vs[m])
  }

  predicate IsFirst(v: Vertex, vs: seq<Vertex>, m: nat) {
    m < |vs| && MayCoincide(v, vs[m]) && forall j: nat | j < m :: !MayCoincide(v, vs[j])
  }

  lemma FirstStays(v: Vertex, vs: seq<Vertex>, m: nat, last: Vertex)
    requires IsFirst(v, vs, m)
    ensures IsFirst(v, vs + [last], m)
  {
    hide MayCoincide;
  }

  lemma TellsMore(v: Vertex, vs: seq<Vertex>, previous: seq<seq<KeyIdentity>>, k: nat, last: Vertex)
    requires Tells(v, vs, previous, k)
    ensures !MayCoincide(v, last) ==> Tells(v, vs + [last], previous, k)
    ensures IsDated(last) ==>
              Tells(v, vs + [last], previous + [VertexDates(last)],
                    if k < |previous| then k else if MayCoincide(v, last) then |previous| else |previous| + 1)
  {
    hide MayCoincide, VertexDates, IsFirst;
    if k < |previous| {
      var m: nat :| m < |vs| && IsDated(vs[m]) && IsFirst(v, vs, m) && previous[k] == VertexDates(vs[m]);
      FirstStays(v, vs, m, last);
      assert (vs + [last])[m] == vs[m];
    } else if MayCoincide(v, last) {
      LastIsFirst(v, vs, last);
      assert (vs + [last])[|vs|] == last;
    }
  }

  lemma LastIsFirst(v: Vertex, vs: seq<Vertex>, last: Vertex)
    requires MayCoincide(v, last) && forall m: nat | m < |vs| :: !MayCoincide(v, vs[m])
    ensures IsFirst(v, vs + [last], |vs|) && IsDated(last)
  {
  }

  lemma {:induction false} FirstClashIsFirstVertex(schema: Schema, v: Vertex, vs: seq<Vertex>)
    requires IsDated(v) && WellFormed(schema, v) && FollowsSchema(schema, vs)
    ensures Comparable(VertexDates(v), DatesInGroup(vs, GroupOf(v)))
    ensures Tells(v, vs, DatesInGroup(vs, GroupOf(v)), FirstClash(VertexDates(v), DatesInGroup(vs, GroupOf(v))))
    decreases |vs|
  {
    GroupIsComparable(schema, v, vs);
    if vs != [] {
      var front, last := vs[..|vs| - 1], vs[|vs| - 1];
      assert vs == front + [last];
      FirstClashIsFirstVertex(schema, v, front);
      var before := DatesInGroup(front, GroupOf(v));
      var k := FirstClash(VertexDates(v), before);
      TellsMore(v, front, before, k, last);
      if IsDated(last) && GroupOf(last) == GroupOf(v) {
        assert DatesInGroup(vs, GroupOf(v)) == before + [VertexDates(last)];
        ClashBehind(VertexDates(v), before, VertexDates(last));
        SameGroupMayCoincide(v, last, before);
      } else {
        assert DatesInGroup(vs, GroupOf(v)) == before;
        assert !MayCoincide(v, last);
      }
      hide Tells, MayCoincide, Clash, FirstClash, DatesInGroup;
    }
  }

  lemma SameGroupMayCoincide(v: Vertex, w: Vertex, before: seq<seq<KeyIdentity>>)
    requires IsDated(v) && IsDated(w) && GroupOf(v) == GroupOf(w)
    requires Comparable(VertexDates(v), before + [VertexDates(w)])
    ensures |VertexDates(w)| == |VertexDates(v)|
    ensures Clash(VertexDates(v), VertexDates(w)) <==> MayCoincide(v, w)
  {
    assert VertexDates(w) in before + [VertexDates(w)];
    hide Clash;
  }

  // ---- The reports ------------------------------------------------------------------------------

  /** An earlier vertex of the label has the same key. */
  ghost predicate IsDuplicate(vs: seq<Vertex>, n: nat) {
    n < |vs| && exists m: nat :: m < n && SameKey(vs[n], vs[m])
  }

  /** An earlier vertex may coincide, and k is where it first differs in representation from the first such. */
  ghost predicate IsAmbiguous(vs: seq<Vertex>, n: nat, k: nat) {
    exists m: nat :: FirstToCoincide(vs, n, m) && DiffersFirstAt(vs[n], vs[m], k)
  }

  lemma DuplicateOfOne(vs: seq<Vertex>, n: nat)
    requires n < |vs|
    ensures (exists prior :: prior in vs[..n] && SameKey(vs[n], prior)) <==> IsDuplicate(vs, n)
  {
    var earlier := vs[..n];
    hide SameKey;
    if prior :| prior in earlier && SameKey(vs[n], prior) {
      var m: nat :| m < n && earlier[m] == prior;
      assert vs[m] == prior;
    }
    if m: nat :| m < n && SameKey(vs[n], vs[m]) { assert earlier[m] in earlier && earlier[m] == vs[m]; }
  }

  lemma FirstMixedIs(v: Vertex, w: Vertex)
    requires MayCoincide(v, w)
    ensures IsDated(v) && IsDated(w) && |VertexDates(v)| == |VertexDates(w)|
    ensures Clash(VertexDates(v), VertexDates(w))
    ensures forall k :: DiffersFirstAt(v, w, k) <==> k == FirstMixed(VertexDates(v), VertexDates(w))
  {
  }

  lemma FirstOfAll(vs: seq<Vertex>, n: nat, m: nat)
    requires n < |vs|
    ensures FirstToCoincide(vs, n, m) <==> IsFirst(vs[n], vs[..n], m)
  {
    hide MayCoincide;
    assert forall j: nat | j < n :: vs[..n][j] == vs[j];
  }

  lemma OneFirst(v: Vertex, vs: seq<Vertex>, m: nat, m': nat)
    requires IsFirst(v, vs, m) && IsFirst(v, vs, m')
    ensures m == m'
  {
    hide MayCoincide;
  }

  lemma AmbiguityOfOne(schema: Schema, vs: seq<Vertex>, n: nat)
    requires FollowsSchema(schema, vs) && n < |vs| && IsDated(vs[n])
    ensures Comparable(VertexDates(vs[n]), DatesInGroup(vs[..n], GroupOf(vs[n])))
    ensures var found := AmbiguityOf(n, VertexDates(vs[n]), DatesInGroup(vs[..n], GroupOf(vs[n])));
            && |found| <= 1 && (forall x | x in found :: x.vertex == n && x.Ambiguous?)
            && forall k :: Ambiguous(n, k) in found <==> IsAmbiguous(vs, n, k)
  {
    var v, earlier := vs[n], vs[..n];
    assert v in vs && forall w | w in earlier :: w in vs;
    FirstClashIsFirstVertex(schema, v, earlier);
    var previous := DatesInGroup(earlier, GroupOf(v));
    var c := FirstClash(VertexDates(v), previous);
    hide MayCoincide, Clash, DatesInGroup, FirstClash, IsFirst, FirstToCoincide, DiffersFirstAt, FollowsSchema,
         FirstMixed;
    forall m: nat ensures FirstToCoincide(vs, n, m) <==> IsFirst(v, earlier, m) { FirstOfAll(vs, n, m); }
    if c < |previous| {
      var m: nat :| m < n && IsDated(earlier[m]) && IsFirst(v, earlier, m) && previous[c] == VertexDates(earlier[m]);
      FirstCoincides(v, earlier, m);
      FirstMixedIs(v, vs[m]);
      forall m': nat | IsFirst(v, earlier, m') ensures m' == m { OneFirst(v, earlier, m, m'); }
    } else {
      forall m: nat ensures !IsFirst(v, earlier, m) { NoFirst(v, earlier, m); }
    }
  }

  lemma FirstCoincides(v: Vertex, vs: seq<Vertex>, m: nat)
    requires IsFirst(v, vs, m)
    ensures MayCoincide(v, vs[m])
  {
  }

  lemma NoFirst(v: Vertex, vs: seq<Vertex>, m: nat)
    requires forall j: nat | j < |vs| :: !MayCoincide(v, vs[j])
    ensures !IsFirst(v, vs, m)
  {
  }

  /** These are the reports about vertex n. */
  ghost predicate AreReportsOf(vs: seq<Vertex>, n: nat, found: seq<Issue>) {
    && (forall x | x in found :: x.vertex == n)
    && (Duplicate(n) in found <==> IsDuplicate(vs, n))
    && (forall k: nat :: Ambiguous(n, k) in found <==> IsAmbiguous(vs, n, k))
    && (forall i, j | 0 <= i < j < |found| :: found[i].Duplicate? && found[j].Ambiguous?)
  }

  lemma ReportsOfOne(schema: Schema, vs: seq<Vertex>, n: nat)
    requires FollowsSchema(schema, vs) && n < |vs|
    ensures WellFormed(schema, vs[n]) && FollowsSchema(schema, vs[..n])
    ensures AreReportsOf(vs, n, IssuesOf(schema, vs[n], vs[..n]))
  {
    var v, earlier := vs[n], vs[..n];
    assert v in vs && forall w | w in earlier :: w in vs;
    DuplicateOfOne(vs, n);
    var repeated := if exists prior :: prior in earlier && SameKey(v, prior) then [Duplicate(n)] else [];
    if IsDated(v) {
      AmbiguityOfOne(schema, vs, n);
      TwoKindsOfReports(vs, n, repeated, AmbiguityOf(n, VertexDates(v), DatesInGroup(earlier, GroupOf(v))));
    } else {
      NotDated(vs, n);
      TwoKindsOfReports(vs, n, repeated, []);
    }
    hide SameKey, AmbiguityOf, IsDuplicate, IsAmbiguous, DatesInGroup, FollowsSchema, Comparable, AreReportsOf;
  }

  lemma TwoKindsOfReports(vs: seq<Vertex>, n: nat, repeated: seq<Issue>, doubtful: seq<Issue>)
    requires repeated == if IsDuplicate(vs, n) then [Duplicate(n)] else []
    requires |doubtful| <= 1 && (forall x | x in doubtful :: x.vertex == n && x.Ambiguous?)
    requires forall k: nat :: Ambiguous(n, k) in doubtful <==> IsAmbiguous(vs, n, k)
    ensures AreReportsOf(vs, n, repeated + doubtful)
  {
    hide IsDuplicate, IsAmbiguous;
  }

  lemma NotDated(vs: seq<Vertex>, n: nat)
    requires n < |vs| && !IsDated(vs[n])
    ensures forall k :: !IsAmbiguous(vs, n, k)
  {
  }

  predicate Comes(x: Issue, y: Issue) {
    x.vertex < y.vertex || (x.vertex == y.vertex && x.Duplicate? && y.Ambiguous?)
  }

  lemma ReportsStay(vs: seq<Vertex>, v: Vertex, n: nat, k: nat)
    requires n < |vs|
    ensures IsDuplicate(vs + [v], n) <==> IsDuplicate(vs, n)
    ensures IsAmbiguous(vs + [v], n, k) <==> IsAmbiguous(vs, n, k)
  {
    hide SameKey, DiffersFirstAt, MayCoincide;
    var more := vs + [v];
    assert forall j: nat | j < |vs| :: more[j] == vs[j];
    assert forall m: nat :: FirstToCoincide(more, n, m) <==> FirstToCoincide(vs, n, m);
  }

  /** A report for every vertex that is a duplicate or ambiguous, and no other, in the order of the vertices. */
  ghost predicate AreReports(vs: seq<Vertex>, found: seq<Issue>) {
    && (forall x | x in found ::
          if x.Duplicate? then IsDuplicate(vs, x.vertex) else IsAmbiguous(vs, x.vertex, x.dateKey))
    && (forall n: nat | IsDuplicate(vs, n) :: Duplicate(n) in found)
    && (forall n: nat, k: nat | IsAmbiguous(vs, n, k) :: Ambiguous(n, k) in found)
    && (forall i, j | 0 <= i < j < |found| :: Comes(found[i], found[j]))
  }

  lemma ReportsAreOfVertices(vs: seq<Vertex>, n: nat, k: nat)
    ensures IsDuplicate(vs, n) || IsAmbiguous(vs, n, k) ==> n < |vs|
  {
  }

  lemma MoreReports(front: seq<Vertex>, v: Vertex, before: seq<Issue>, last: seq<Issue>)
    requires AreReports(front, before) && AreReportsOf(front + [v], |front|, last)
    ensures AreReports(front + [v], before + last)
  {
    var vs, n := front + [v], |front|;
    hide IsDuplicate, IsAmbiguous;
    forall x | x in before
      ensures x.vertex < n
      ensures if x.Duplicate? then IsDuplicate(vs, x.vertex) else IsAmbiguous(vs, x.vertex, x.dateKey)
    {
      var k := if x.Duplicate? then 0 else x.dateKey;
      ReportsAreOfVertices(front, x.vertex, k);
      ReportsStay(front, v, x.vertex, k);
    }
    forall i: nat | IsDuplicate(vs, i) ensures Duplicate(i) in before + last {
      ReportsAreOfVertices(vs, i, 0);
      if i < n { ReportsStay(front, v, i, 0); }
    }
    forall i: nat, k: nat | IsAmbiguous(vs, i, k) ensures Ambiguous(i, k) in before + last {
      ReportsAreOfVertices(vs, i, k);
      if i < n { ReportsStay(front, v, i, k); }
    }
    forall x | x in last
      ensures if x.Duplicate? then IsDuplicate(vs, x.vertex) else IsAmbiguous(vs, x.vertex, x.dateKey)
    {
      assert x == if x.Duplicate? then Duplicate(n) else Ambiguous(n, x.dateKey);
    }
    forall i, j | 0 <= i < j < |before + last| ensures Comes((before + last)[i], (before + last)[j]) {
      if i < |before| { assert before[i] in before; }
      if |before| <= j { assert last[j - |before|] in last; }
      if |before| <= i { assert last[i - |before|] in last; }
    }
  }

  /** The reports, exactly: a vertex is a duplicate if an earlier one has its key; it is ambiguous, at the
      first DATE key in which they differ in representation, if an earlier one may coincide with it, the
      first of which counts; and the reports follow the order of the vertices. */
  lemma {:induction false} ReportsExactly(schema: Schema, vs: seq<Vertex>)
    requires FollowsSchema(schema, vs)
    ensures AreReports(vs, AllIssues(schema, vs))
  {
    if vs != [] {
      var n := |vs| - 1;
      var front := vs[..n];
      assert vs == front + [vs[n]] && forall w | w in front :: w in vs;
      ReportsExactly(schema, front);
      ReportsOfOne(schema, vs, n);
      MoreReports(front, vs[n], AllIssues(schema, front), IssuesOf(schema, vs[n], front));
      hide AreReports, AreReportsOf, IssuesOf;
    }
  }
}
