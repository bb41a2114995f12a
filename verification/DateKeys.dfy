/** Primary keys in `_validate_graph` (property_graph.py): duplicates, and DATE keys written in two
    representations whose relation depends on the server's time zone, which is not known. */
module DateKeys {
  import opened Wrappers

  const DAY: int := 86_400_000

  /** A JSON value of a DATE property. What `strptime` makes of a text is an input: the wall-clock
      milliseconds, or nothing. */
  datatype RawDate =
    | Number(value: int)
    | Boolean(flag: bool)
    | Text(raw: string, millis: Option<int>)
    | Json(raw: string)

  datatype KeyValue = Date(raw: RawDate) | Plain(identity: string)

  datatype KeyIdentity = Epoch(millis: int) | Wall(millis: int) | Unparsed(raw: RawDate) | Other(identity: string)

  predicate IsLong(v: int) {
    -0x8000_0000_0000_0000 <= v < 0x8000_0000_0000_0000
  }

  function DateIdentity(raw: RawDate): Option<KeyIdentity> {
    match raw
    case Number(v) => if IsLong(v) then Some(Epoch(v)) else None
    case Text(_, Some(ms)) => Some(Wall(ms))
    case _ => None
  }

  function PrimaryIdentity(v: KeyValue): KeyIdentity {
    match v
    case Plain(identity) => Other(identity)
    case Date(raw) => if DateIdentity(raw).Some? then DateIdentity(raw).value else Unparsed(raw)
  }

  /** `keys` is None when some primary-key value is missing or empty, or the label has none. The
      label's schema says which of the keys are DATE keys; the i-th value of a vertex is its i-th key. */
  datatype Vertex = Vertex(vertexLabel: string, keys: Option<seq<KeyValue>>)

  function Identities(keys: seq<KeyValue>): (r: seq<KeyIdentity>)
    ensures |r| == |keys| && forall i | 0 <= i < |keys| :: r[i] == PrimaryIdentity(keys[i])
  {
    seq(|keys|, i requires 0 <= i < |keys| => PrimaryIdentity(keys[i]))
  }

  predicate IsParsed(id: KeyIdentity) {
    id.Epoch? || id.Wall?
  }

  predicate IsDate(id: KeyIdentity) {
    IsParsed(id) || id.Unparsed?
  }

  function DatesOf(ids: seq<KeyIdentity>): (r: seq<KeyIdentity>)
    ensures forall d | d in r :: IsDate(d) && d in ids
    ensures forall d | d in ids && IsDate(d) :: d in r
  {
    if ids == [] then []
    else if IsDate(ids[0]) then [ids[0]] + DatesOf(ids[1..])
    else DatesOf(ids[1..])
  }

  function PlainsOf(ids: seq<KeyIdentity>): seq<KeyIdentity> {
    if ids == [] then []
    else if IsDate(ids[0]) then PlainsOf(ids[1..])
    else [ids[0]] + PlainsOf(ids[1..])
  }

  /** Per vertex label, which of its primary keys are DATE keys. */
  type Schema = map<string, seq<bool>>

  predicate WellFormed(schema: Schema, v: Vertex) {
    v.keys.Some? ==>
      && v.vertexLabel in schema && |schema[v.vertexLabel]| == |v.keys.value|
      && forall i | 0 <= i < |v.keys.value| :: schema[v.vertexLabel][i] == v.keys.value[i].Date?
  }

  predicate FollowsSchema(schema: Schema, vs: seq<Vertex>) {
    forall v | v in vs :: WellFormed(schema, v)
  }

  function CountDates(shape: seq<bool>): nat {
    if shape == [] then 0 else (if shape[0] then 1 else 0) + CountDates(shape[1..])
  }

  lemma {:induction false} DatesCounted(ids: seq<KeyIdentity>, shape: seq<bool>)
    requires |ids| == |shape| && forall i | 0 <= i < |ids| :: IsDate(ids[i]) == shape[i]
    ensures |DatesOf(ids)| == CountDates(shape)
  {
    if ids != [] { DatesCounted(ids[1..], shape[1..]); }
  }

  // ---- What the validator reports -------------------------------------------

  predicate AllParsed(dates: seq<KeyIdentity>) {
    forall d | d in dates :: IsParsed(d)
  }

  predicate IsMixed(current: KeyIdentity, prior: KeyIdentity) {
    current.Epoch? != prior.Epoch?
  }

  function Gap(current: KeyIdentity, prior: KeyIdentity): int
    requires IsParsed(current) && IsParsed(prior)
  {
    if current.millis < prior.millis then prior.millis - current.millis else current.millis - prior.millis
  }

  /** The two lists of DATE keys may or may not denote the same instants. */
  predicate Clash(current: seq<KeyIdentity>, prior: seq<KeyIdentity>)
    requires AllParsed(current) && AllParsed(prior) && |current| == |prior|
  {
    && (exists k :: 0 <= k < |current| && IsMixed(current[k], prior[k]))
    && forall k | 0 <= k < |current| ::
         if IsMixed(current[k], prior[k]) then Gap(current[k], prior[k]) < DAY else current[k] == prior[k]
  }

  function FirstMixed(current: seq<KeyIdentity>, prior: seq<KeyIdentity>): (k: nat)
    requires |current| == |prior| && exists k :: 0 <= k < |current| && IsMixed(current[k], prior[k])
    ensures k < |current| && IsMixed(current[k], prior[k])
    ensures forall j | 0 <= j < k :: !IsMixed(current[j], prior[j])
  {
    if IsMixed(current[0], prior[0]) then 0
    else
      assert exists k :: 0 <= k < |current| - 1 && IsMixed(current[1..][k], prior[1..][k]) by {
        var k :| 0 <= k < |current| && IsMixed(current[k], prior[k]);
        assert current[1..][k - 1] == current[k] && prior[1..][k - 1] == prior[k];
      }
      1 + FirstMixed(current[1..], prior[1..])
  }

  /** Ambiguous names the DATE key, counted among the DATE keys of the label. */
  datatype Issue = Duplicate(vertex: nat) | Ambiguous(vertex: nat, dateKey: nat)

  type Group = (string, seq<KeyIdentity>)

  function GroupOf(v: Vertex): Group
    requires v.keys.Some?
  {
    (v.vertexLabel, PlainsOf(Identities(v.keys.value)))
  }

  function VertexDates(v: Vertex): seq<KeyIdentity>
    requires v.keys.Some?
  {
    DatesOf(Identities(v.keys.value))
  }

  /** The vertex takes part in the comparison of DATE keys. */
  predicate IsDated(v: Vertex) {
    v.keys.Some? && VertexDates(v) != [] && AllParsed(VertexDates(v))
  }

  predicate SameKey(a: Vertex, b: Vertex) {
    && a.keys.Some? && b.keys.Some? && a.vertexLabel == b.vertexLabel
    && Identities(a.keys.value) == Identities(b.keys.value)
  }

  /** The DATE keys of a group's members, in the order of the vertices. */
  function DatesInGroup(vs: seq<Vertex>, g: Group): seq<seq<KeyIdentity>> {
    if vs == [] then []
    else
      var last := vs[|vs| - 1];
      DatesInGroup(vs[..|vs| - 1], g) + if IsDated(last) && GroupOf(last) == g then [VertexDates(last)] else []
  }

  predicate Comparable(dates: seq<KeyIdentity>, previous: seq<seq<KeyIdentity>>) {
    AllParsed(dates) && forall p | p in previous :: AllParsed(p) && |p| == |dates|
  }

  /** The first of `previous` that may coincide with `dates`, or `|previous|`. */
  function FirstClash(dates: seq<KeyIdentity>, previous: seq<seq<KeyIdentity>>): (k: nat)
    requires Comparable(dates, previous)
    ensures k <= |previous|
    ensures k < |previous| ==> Clash(dates, previous[k])
    ensures forall j | 0 <= j < k :: !Clash(dates, previous[j])
  {
    if previous == [] || Clash(dates, previous[0]) then 0 else 1 + FirstClash(dates, previous[1..])
  }

  function AmbiguityOf(n: nat, dates: seq<KeyIdentity>, previous: seq<seq<KeyIdentity>>): seq<Issue>
    requires Comparable(dates, previous)
  {
    var k := FirstClash(dates, previous);
    if k < |previous| then [Ambiguous(n, FirstMixed(dates, previous[k]))] else []
  }

  function IssuesOf(schema: Schema, v: Vertex, earlier: seq<Vertex>): seq<Issue>
    requires WellFormed(schema, v) && FollowsSchema(schema, earlier)
  {
    (if exists prior :: prior in earlier && SameKey(v, prior) then [Duplicate(|earlier|)] else [])
    + if IsDated(v) then
        GroupIsComparable(schema, v, earlier);
        AmbiguityOf(|earlier|, VertexDates(v), DatesInGroup(earlier, GroupOf(v)))
      else []
  }

  function AllIssues(schema: Schema, vs: seq<Vertex>): seq<Issue>
    requires FollowsSchema(schema, vs)
  {
    if vs == [] then []
    else
      var n := |vs| - 1;
      AllIssues(schema, vs[..n]) + IssuesOf(schema, vs[n], vs[..n])
  }

  lemma VertexDatesCounted(schema: Schema, v: Vertex)
    requires v.keys.Some? && WellFormed(schema, v)
    ensures |VertexDates(v)| == CountDates(schema[v.vertexLabel])
  {
    DatesCounted(Identities(v.keys.value), schema[v.vertexLabel]);
  }

  lemma {:induction false} GroupIsComparable(schema: Schema, v: Vertex, vs: seq<Vertex>)
    requires IsDated(v) && WellFormed(schema, v) && FollowsSchema(schema, vs)
    ensures Comparable(VertexDates(v), DatesInGroup(vs, GroupOf(v)))
  {
    if vs != [] {
      var last := vs[|vs| - 1];
      GroupIsComparable(schema, v, vs[..|vs| - 1]);
      if IsDated(last) && GroupOf(last) == GroupOf(v) {
        VertexDatesCounted(schema, last);
        VertexDatesCounted(schema, v);
      }
    }
  }

  // ---- The validator's loop -----------------------------------------------------

  ghost predicate SeenKeys(seen: set<(string, seq<KeyIdentity>)>, vs: seq<Vertex>) {
    forall name, ids :: (name, ids) in seen <==>
      exists v :: v in vs && v.keys.Some? && v.vertexLabel == name && Identities(v.keys.value) == ids
  }

  ghost predicate SeenDates(dates: map<Group, seq<seq<KeyIdentity>>>, vs: seq<Vertex>) {
    forall g: Group :: (if g in dates then dates[g] else []) == DatesInGroup(vs, g)
  }

  method FindAmbiguity(n: nat, dates: seq<KeyIdentity>, previous: seq<seq<KeyIdentity>>) returns (issues: seq<Issue>)
    requires Comparable(dates, previous)
    ensures issues == AmbiguityOf(n, dates, previous)
  {
    for i := 0 to |previous|
      invariant forall j | 0 <= j < i :: !Clash(dates, previous[j])
    {
      if Clash(dates, previous[i]) {
        return [Ambiguous(n, FirstMixed(dates, previous[i]))];
      }
    }
    issues := [];
  }

  lemma SeeKey(seen: set<(string, seq<KeyIdentity>)>, vs: seq<Vertex>, v: Vertex)
    requires SeenKeys(seen, vs)
    ensures v.keys.Some? ==>
              && SeenKeys(seen + {(v.vertexLabel, Identities(v.keys.value))}, vs + [v])
              && ((v.vertexLabel, Identities(v.keys.value)) in seen
                  <==> exists prior :: prior in vs && SameKey(v, prior))
    ensures v.keys.None? ==> SeenKeys(seen, vs + [v])
  {
    if v.keys.Some? {
      var key := (v.vertexLabel, Identities(v.keys.value));
      if key in seen {
        var prior :| prior in vs && prior.keys.Some? && prior.vertexLabel == key.0
                     && Identities(prior.keys.value) == key.1;
        assert SameKey(v, prior);
      }
      forall name, ids ensures (name, ids) in seen + {key} <==>
        exists w :: w in vs + [v] && w.keys.Some? && w.vertexLabel == name && Identities(w.keys.value) == ids
      {
        if (name, ids) in seen {
          var w :| w in vs && w.keys.Some? && w.vertexLabel == name && Identities(w.keys.value) == ids;
          assert w in vs + [v];
        }
        if (name, ids) == key { assert v in vs + [v]; }
      }
    }
  }

  lemma SeeDates(dates: map<Group, seq<seq<KeyIdentity>>>, vs: seq<Vertex>, v: Vertex)
    requires SeenDates(dates, vs)
    ensures if IsDated(v) then
              var g := GroupOf(v);
              var previous := if g in dates then dates[g] else [];
              previous == DatesInGroup(vs, g) && SeenDates(dates[g := previous + [VertexDates(v)]], vs + [v])
            else SeenDates(dates, vs + [v])
  {
    assert (vs + [v])[..|vs|] == vs;
  }

  type SeenSet = set<(string, seq<KeyIdentity>)>
  type SeenMap = map<Group, seq<seq<KeyIdentity>>>

  /** One round of the loop, for a vertex with all its primary-key values. */
  method CheckKeys(ghost schema: Schema, v: Vertex, ghost earlier: seq<Vertex>, n: nat, seen: SeenSet, dates: SeenMap)
    returns (found: seq<Issue>, seen': SeenSet, dates': SeenMap)
    requires v.keys.Some? && WellFormed(schema, v) && FollowsSchema(schema, earlier) && n == |earlier|
    requires SeenKeys(seen, earlier) && SeenDates(dates, earlier)
    ensures found == IssuesOf(schema, v, earlier)
    ensures SeenKeys(seen', earlier + [v]) && SeenDates(dates', earlier + [v])
  {
    hide SeenKeys, SeenDates, AmbiguityOf, FollowsSchema, DatesInGroup;
    SeeKey(seen, earlier, v);
    SeeDates(dates, earlier, v);
    var ids := Identities(v.keys.value);
    found := if (v.vertexLabel, ids) in seen then [Duplicate(n)] else [];
    seen' := seen + {(v.vertexLabel, ids)};
    dates' := dates;
    var current := DatesOf(ids);
    if current != [] && AllParsed(current) {
      var group := (v.vertexLabel, PlainsOf(ids));
      var previous := if group in dates then dates[group] else [];
      GroupIsComparable(schema, v, earlier);
      var ambiguity := FindAmbiguity(n, current, previous);
      found := found + ambiguity;
      dates' := dates[group := previous + [current]];
    }
  }

  /** The primary-key part of `_validate_graph`. */
  method CheckPrimaryKeys(ghost schema: Schema, vs: seq<Vertex>) returns (issues: seq<Issue>)
    requires FollowsSchema(schema, vs)
    ensures issues == AllIssues(schema, vs)
  {
    issues := [];
    var seen: SeenSet := {};
    var dates: SeenMap := map[];
    for n := 0 to |vs|
      invariant issues == AllIssues(schema, vs[..n])
      invariant SeenKeys(seen, vs[..n]) && SeenDates(dates, vs[..n])
    {
      NextVertex(schema, vs, n);
      if vs[n].keys.Some? {
        var found: seq<Issue>;
        found, seen, dates := CheckKeys(schema, vs[n], vs[..n], n, seen, dates);
        issues := issues + found;
      } else {
        SeeKey(seen, vs[..n], vs[n]);
        SeeDates(dates, vs[..n], vs[n]);
      }
    }
    assert vs[..|vs|] == vs;
  }

  lemma NextVertex(schema: Schema, vs: seq<Vertex>, n: nat)
    requires FollowsSchema(schema, vs) && n < |vs|
    ensures vs[..n + 1] == vs[..n] + [vs[n]]
    ensures WellFormed(schema, vs[n]) && FollowsSchema(schema, vs[..n])
    ensures AllIssues(schema, vs[..n + 1]) == AllIssues(schema, vs[..n]) + IssuesOf(schema, vs[n], vs[..n])
    ensures vs[n].keys.None? ==> IssuesOf(schema, vs[n], vs[..n]) == []
  {
    assert vs[..n + 1][..n] == vs[..n];
  }
}
