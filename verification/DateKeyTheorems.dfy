/** What the DATE-key check guarantees on a server whose time zone nobody told the validator. */
module DateKeyTheorems {
  import opened Wrappers
  import opened DateKeys

  /** A zone rule turns a wall-clock reading into an instant: one-to-one, and less than a day off. */
  ghost predicate IsZone(z: int -> int) {
    && (forall w, w' :: z(w) == z(w') ==> w == w')
    && (forall w :: w - DAY < z(w) < w + DAY)
  }

  /** A key as the server stores it. */
  datatype Stored = Instant(millis: int) | Kept(identity: KeyIdentity)

  function StoredKey(id: KeyIdentity, z: int -> int): Stored {
    match id
    case Epoch(ms) => Instant(ms)
    case Wall(ms) => Instant(z(ms))
    case _ => Kept(id)
  }

  function StoredKeys(ids: seq<KeyIdentity>, z: int -> int): (r: seq<Stored>)
    ensures |r| == |ids| && forall i | 0 <= i < |ids| :: r[i] == StoredKey(ids[i], z)
  {
    seq(|ids|, i requires 0 <= i < |ids| => StoredKey(ids[i], z))
  }

  /** The vertex has all its primary keys, and its DATE keys are dates. */
  predicate Parses(v: Vertex) {
    v.keys.Some? && forall id | id in Identities(v.keys.value) :: !id.Unparsed?
  }

  predicate SameStoredKey(a: Vertex, b: Vertex, z: int -> int) {
    && Parses(a) && Parses(b) && a.vertexLabel == b.vertexLabel
    && StoredKeys(Identities(a.keys.value), z) == StoredKeys(Identities(b.keys.value), z)
  }

  predicate SameShape(a: seq<KeyIdentity>, b: seq<KeyIdentity>) {
    |a| == |b| && forall i | 0 <= i < |a| :: IsDate(a[i]) == IsDate(b[i])
  }

  lemma ConsEqual<T>(x: T, xs: seq<T>, y: T, ys: seq<T>)
    ensures [x] + xs == [y] + ys <==> x == y && xs == ys
  {
    if [x] + xs == [y] + ys {
      assert ([x] + xs)[0] == ([y] + ys)[0];
      assert ([x] + xs)[1..] == xs && ([y] + ys)[1..] == ys;
    }
  }

  lemma {:induction false} IdentitiesSplit(a: seq<KeyIdentity>, b: seq<KeyIdentity>)
    requires SameShape(a, b)
    ensures |DatesOf(a)| == |DatesOf(b)|
    ensures a == b <==> PlainsOf(a) == PlainsOf(b) && DatesOf(a) == DatesOf(b)
  {
    if a != [] {
      IdentitiesSplit(a[1..], b[1..]);
      assert a == [a[0]] + a[1..] && b == [b[0]] + b[1..];
      ConsEqual(a[0], a[1..], b[0], b[1..]);
      ConsEqual(a[0], DatesOf(a[1..]), b[0], DatesOf(b[1..]));
      ConsEqual(a[0], PlainsOf(a[1..]), b[0], PlainsOf(b[1..]));
    }
  }

  /** Composite keys are equal when the plain keys are and the DATE keys are stored alike. */
  lemma {:induction false} StoredKeysSplit(a: seq<KeyIdentity>, b: seq<KeyIdentity>, z: int -> int)
    requires SameShape(a, b)
    ensures StoredKeys(a, z) == StoredKeys(b, z)
            <==> PlainsOf(a) == PlainsOf(b) && StoredKeys(DatesOf(a), z) == StoredKeys(DatesOf(b), z)
  {
    if a != [] {
      StoredKeysSplit(a[1..], b[1..], z);
      StoredSplit(a, z);
      StoredSplit(b, z);
      ConsEqual(StoredKey(a[0], z), StoredKeys(a[1..], z), StoredKey(b[0], z), StoredKeys(b[1..], z));
      if IsDate(a[0]) {
        DatesSplit(a, z);
        DatesSplit(b, z);
        ConsEqual(StoredKey(a[0], z), StoredKeys(DatesOf(a[1..]), z),
                  StoredKey(b[0], z), StoredKeys(DatesOf(b[1..]), z));
      } else {
        ConsEqual(a[0], PlainsOf(a[1..]), b[0], PlainsOf(b[1..]));
      }
    } else {
      assert StoredKeys(a, z) == StoredKeys(b, z);
    }
  }

  lemma DatesSplit(a: seq<KeyIdentity>, z: int -> int)
    requires a != [] && IsDate(a[0])
    ensures StoredKeys(DatesOf(a), z) == [StoredKey(a[0], z)] + StoredKeys(DatesOf(a[1..]), z)
  {
    StoredSplit(DatesOf(a), z);
    assert DatesOf(a)[1..] == DatesOf(a[1..]);
  }

  lemma StoredSplit(a: seq<KeyIdentity>, z: int -> int)
    requires a != []
    ensures StoredKeys(a, z) == [StoredKey(a[0], z)] + StoredKeys(a[1..], z)
  {
  }

  /** DATE keys that do not clash are stored apart, unless they are written alike. */
  lemma NoClashMeansApart(current: seq<KeyIdentity>, prior: seq<KeyIdentity>, z: int -> int)
    requires AllParsed(current) && AllParsed(prior) && |current| == |prior| && !Clash(current, prior) && IsZone(z)
    requires StoredKeys(current, z) == StoredKeys(prior, z)
    ensures current == prior
  {
    forall k | 0 <= k < |current|
      ensures if IsMixed(current[k], prior[k]) then Gap(current[k], prior[k]) < DAY else current[k] == prior[k]
    {
      assert current[k] in current && prior[k] in prior;
      assert StoredKeys(current, z)[k] == StoredKeys(prior, z)[k];
    }
  }

  lemma {:induction false} GroupHolds(vs: seq<Vertex>, i: nat)
    requires i < |vs| && IsDated(vs[i])
    ensures VertexDates(vs[i]) in DatesInGroup(vs, GroupOf(vs[i]))
  {
    var n := |vs| - 1;
    if i < n { GroupHolds(vs[..n], i); }
  }

  lemma {:induction false} GroupComesFrom(vs: seq<Vertex>, g: Group, dates: seq<KeyIdentity>) returns (i: nat)
    requires dates in DatesInGroup(vs, g)
    ensures i < |vs| && IsDated(vs[i]) && GroupOf(vs[i]) == g && VertexDates(vs[i]) == dates
  {
    var n := |vs| - 1;
    if IsDated(vs[n]) && GroupOf(vs[n]) == g && VertexDates(vs[n]) == dates {
      i := n;
    } else {
      i := GroupComesFrom(vs[..n], g, dates);
    }
  }

  lemma {:induction false} SilentEverywhere(schema: Schema, vs: seq<Vertex>, j: nat)
    requires FollowsSchema(schema, vs) && AllIssues(schema, vs) == [] && j < |vs|
    ensures IssuesOf(schema, vs[j], vs[..j]) == []
  {
    var n := |vs| - 1;
    if j < n {
      SilentEverywhere(schema, vs[..n], j);
      assert vs[..n][..j] == vs[..j];
    }
  }

  lemma {:induction false} LoudSomewhere(schema: Schema, vs: seq<Vertex>) returns (j: nat)
    requires FollowsSchema(schema, vs) && AllIssues(schema, vs) != []
    ensures j < |vs| && IssuesOf(schema, vs[j], vs[..j]) != []
  {
    var n := |vs| - 1;
    if IssuesOf(schema, vs[n], vs[..n]) != [] {
      j := n;
    } else {
      j := LoudSomewhere(schema, vs[..n]);
      assert vs[..n][..j] == vs[..j];
    }
  }

  lemma ShapesAgree(schema: Schema, a: Vertex, b: Vertex)
    requires WellFormed(schema, a) && WellFormed(schema, b) && a.keys.Some? && b.keys.Some?
    requires a.vertexLabel == b.vertexLabel
    ensures SameShape(Identities(a.keys.value), Identities(b.keys.value))
  {
  }

  lemma ParsedDates(v: Vertex)
    requires Parses(v)
    ensures AllParsed(VertexDates(v))
  {
  }

  /** If no primary key is reported duplicate or ambiguous, then in every time zone all vertices of
      one label whose DATE keys are dates have different composite keys. */
  lemma SilenceIsSafe(schema: Schema, vs: seq<Vertex>, z: int -> int, i: nat, j: nat)
    requires FollowsSchema(schema, vs) && AllIssues(schema, vs) == [] && IsZone(z)
    requires i < j < |vs|
    ensures !SameStoredKey(vs[i], vs[j], z)
  {
    var a, b := vs[i], vs[j];
    if SameStoredKey(a, b, z) {
      SilentEverywhere(schema, vs, j);
      assert a in vs[..j];
      var idsA, idsB := Identities(a.keys.value), Identities(b.keys.value);
      ShapesAgree(schema, a, b);
      StoredKeysSplit(idsA, idsB, z);
      IdentitiesSplit(idsA, idsB);
      ParsedDates(a);
      ParsedDates(b);
      if VertexDates(a) != [] {
        GroupHasNoClash(schema, vs, i, j);
        NoClashMeansApart(VertexDates(b), VertexDates(a), z);
      }
      assert false;
    }
  }

  lemma GroupHasNoClash(schema: Schema, vs: seq<Vertex>, i: nat, j: nat)
    requires FollowsSchema(schema, vs) && i < j < |vs| && IssuesOf(schema, vs[j], vs[..j]) == []
    requires IsDated(vs[i]) && IsDated(vs[j]) && GroupOf(vs[i]) == GroupOf(vs[j])
    ensures |VertexDates(vs[i])| == |VertexDates(vs[j])| && !Clash(VertexDates(vs[j]), VertexDates(vs[i]))
  {
    var group := DatesInGroup(vs[..j], GroupOf(vs[j]));
    GroupIsComparable(schema, vs[j], vs[..j]);
    GroupHolds(vs[..j], i);
    var k :| 0 <= k < |group| && group[k] == VertexDates(vs[i]);
  }

  // ---- Is the alarm ever false? ------------------------------------------------

  /** A clash over a single DATE key is real: some fixed offset makes the two keys equal. */
  lemma OneClashIsReal(current: seq<KeyIdentity>, prior: seq<KeyIdentity>) returns (z: int -> int)
    requires AllParsed(current) && AllParsed(prior) && |current| == |prior| == 1 && Clash(current, prior)
    ensures IsZone(z) && StoredKeys(current, z) == StoredKeys(prior, z)
  {
    var wall := if current[0].Wall? then current[0] else prior[0];
    var epoch := if current[0].Wall? then prior[0] else current[0];
    assert IsMixed(current[0], prior[0]) && current[0] in current && prior[0] in prior;
    var offset := epoch.millis - wall.millis;
    z := w => w + offset;
  }

  /** At most one DATE key per label. */
  predicate OneDateKey(schema: Schema) {
    forall name | name in schema :: CountDates(schema[name]) <= 1
  }

  ghost predicate DistinctInEveryZone(vs: seq<Vertex>) {
    forall z: int -> int, i, j | IsZone(z) && 0 <= i < j < |vs| :: !SameStoredKey(vs[i], vs[j], z)
  }

  lemma SameKeyCollides(vs: seq<Vertex>, i: nat, j: nat)
    requires i < j < |vs| && SameKey(vs[j], vs[i]) && Parses(vs[i])
    ensures !DistinctInEveryZone(vs)
  {
    var z: int -> int := w => w;
    assert IsZone(z);
    assert SameStoredKey(vs[i], vs[j], z);
  }

  lemma AmbiguityCollides(schema: Schema, vs: seq<Vertex>, j: nat)
    requires FollowsSchema(schema, vs) && OneDateKey(schema) && j < |vs| && IsDated(vs[j])
    requires forall v | v in vs && v.keys.Some? :: Parses(v)
    requires Comparable(VertexDates(vs[j]), DatesInGroup(vs[..j], GroupOf(vs[j])))
    requires AmbiguityOf(j, VertexDates(vs[j]), DatesInGroup(vs[..j], GroupOf(vs[j]))) != []
    ensures !DistinctInEveryZone(vs)
  {
    var group := DatesInGroup(vs[..j], GroupOf(vs[j]));
    var k := FirstClash(VertexDates(vs[j]), group);
    var i := GroupComesFrom(vs[..j], GroupOf(vs[j]), group[k]);
    var a, b := vs[i], vs[j];
    assert a in vs && b in vs;
    VertexDatesCounted(schema, b);
    var z := OneClashIsReal(VertexDates(b), VertexDates(a));
    ShapesAgree(schema, a, b);
    StoredKeysSplit(Identities(a.keys.value), Identities(b.keys.value), z);
    assert SameStoredKey(a, b, z);
  }

  /** With at most one DATE key per label the check is exact: it is silent if and only if the keys
      differ whatever the time zone. */
  lemma OneDateKeyIsExact(schema: Schema, vs: seq<Vertex>)
    requires FollowsSchema(schema, vs) && OneDateKey(schema)
    requires forall v | v in vs && v.keys.Some? :: Parses(v)
    ensures AllIssues(schema, vs) == [] <==> DistinctInEveryZone(vs)
  {
    if AllIssues(schema, vs) == [] {
      forall z: int -> int, i, j | IsZone(z) && 0 <= i < j < |vs| ensures !SameStoredKey(vs[i], vs[j], z) {
        SilenceIsSafe(schema, vs, z, i, j);
      }
    } else {
      var j := LoudSomewhere(schema, vs);
      assert vs[j] in vs;
      if prior :| prior in vs[..j] && SameKey(vs[j], prior) {
        var i :| 0 <= i < j && vs[..j][i] == prior;
        SameKeyCollides(vs, i, j);
      } else {
        GroupIsComparable(schema, vs[j], vs[..j]);
        AmbiguityCollides(schema, vs, j);
      }
    }
  }

  /** With two DATE keys the alarm can be false: one reading cannot be two instants in any zone. */
  lemma TwoDateKeysMayAlarmFalsely(name: string)
    ensures var schema := map[name := [true, true]];
            && FollowsSchema(schema, FalseAlarm(name)) && AllIssues(schema, FalseAlarm(name)) == [Ambiguous(1, 0)]
            && DistinctInEveryZone(FalseAlarm(name))
  {
    FalseAlarmIsRaised(name);
    FalseAlarmIdentities(name);
    forall z: int -> int, i, j | IsZone(z) && 0 <= i < j < 2
      ensures !SameStoredKey(FalseAlarm(name)[i], FalseAlarm(name)[j], z)
    {
      assert StoredKeys([Epoch(1), Epoch(2)], z)[0] == Instant(1);
      assert StoredKeys([Epoch(1), Epoch(2)], z)[1] == Instant(2);
      assert StoredKeys([Wall(0), Wall(0)], z)[0] == StoredKeys([Wall(0), Wall(0)], z)[1];
    }
  }

  lemma FalseAlarmIsRaised(name: string)
    ensures var schema := map[name := [true, true]];
            FollowsSchema(schema, FalseAlarm(name)) && AllIssues(schema, FalseAlarm(name)) == [Ambiguous(1, 0)]
  {
    hide AmbiguityOf, Clash;
    var schema: Schema := map[name := [true, true]];
    var a, b := FalseAlarm(name)[0], FalseAlarm(name)[1];
    FalseAlarmIdentities(name);
    FalseAlarmClashes();
    assert FalseAlarm(name)[..1] == [a] && [a][..0] == [];
    assert IsDated(a) && IsDated(b);
    assert DatesInGroup([], GroupOf(a)) == [];
    assert DatesInGroup([a], GroupOf(b)) == [[Epoch(1), Epoch(2)]];
    assert IssuesOf(schema, a, []) == [];
    assert AllIssues(schema, [a]) == [];
    assert !SameKey(b, a);
    assert IssuesOf(schema, b, [a]) == [Ambiguous(1, 0)];
  }

  function FalseAlarm(name: string): seq<Vertex> {
    var text := Date(Text("1970-01-01", Some(0)));
    [Vertex(name, Some([Date(Number(1)), Date(Number(2))])), Vertex(name, Some([text, text]))]
  }

  lemma FalseAlarmIdentities(name: string)
    ensures var vs := FalseAlarm(name);
            && Identities(vs[0].keys.value) == VertexDates(vs[0]) == [Epoch(1), Epoch(2)]
            && Identities(vs[1].keys.value) == VertexDates(vs[1]) == [Wall(0), Wall(0)]
            && GroupOf(vs[0]) == GroupOf(vs[1]) == (name, [])
  {
    var vs := FalseAlarm(name);
    TwoDates(Epoch(1), Epoch(2));
    TwoDates(Wall(0), Wall(0));
    assert Identities(vs[0].keys.value) == [Epoch(1), Epoch(2)];
    assert Identities(vs[1].keys.value) == [Wall(0), Wall(0)];
  }

  lemma FalseAlarmClashes()
    ensures var current, prior := [Wall(0), Wall(0)], [Epoch(1), Epoch(2)];
            && AllParsed(current) && AllParsed(prior)
            && AmbiguityOf(0, prior, []) == [] && AmbiguityOf(1, current, [prior]) == [Ambiguous(1, 0)]
  {
    var current, prior := [Wall(0), Wall(0)], [Epoch(1), Epoch(2)];
    assert IsMixed(current[0], prior[0]) && IsMixed(current[1], prior[1]);
    assert Clash(current, prior);
  }

  lemma TwoDates(x: KeyIdentity, y: KeyIdentity)
    requires IsDate(x) && IsDate(y)
    ensures DatesOf([x, y]) == [x, y] && PlainsOf([x, y]) == []
  {
    assert [x, y][1..] == [y] && [y][1..] == [];
    assert DatesOf([y]) == [y] + DatesOf([]) && PlainsOf([y]) == [] + PlainsOf([]);
  }
}
