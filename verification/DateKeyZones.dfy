/** Which DATE-key alarms are real: for two vertices, exactly when some zone rule could identify them. */
module DateKeyZones {
  import opened DateKeys
  import opened DateKeyTheorems

  // ---- A zone rule through given readings ------------------------------------------

  /** The r-th integer, as it were, when the given instants are taken out: it moves up past them. */
  function Avoiding(taken: seq<int>, r: int): int {
    if taken == [] then r
    else
      var rest, e := taken[..|taken| - 1], taken[|taken| - 1];
      if Avoiding(rest, r) < e then Avoiding(rest, r) else Avoiding(rest, r + 1)
  }

  lemma {:induction false} AvoidingGrows(taken: seq<int>, r: int, r': int)
    requires r < r'
    ensures Avoiding(taken, r) < Avoiding(taken, r')
    decreases |taken|
  {
    if taken != [] {
      var rest := taken[..|taken| - 1];
      AvoidingGrows(rest, r, r');
      AvoidingGrows(rest, r + 1, r' + 1);
      AvoidingGrows(rest, r, r + 1);
      AvoidingGrows(rest, r', r' + 1);
    }
  }

  lemma {:induction false} AvoidingAvoids(taken: seq<int>, r: int)
    ensures Avoiding(taken, r) !in taken
    ensures r <= Avoiding(taken, r) <= r + |taken|
    decreases |taken|
  {
    if taken != [] {
      var rest, e := taken[..|taken| - 1], taken[|taken| - 1];
      AvoidingAvoids(rest, r);
      AvoidingAvoids(rest, r + 1);
      AvoidingGrows(rest, r, r + 1);
      assert taken == rest + [e];
    }
  }

  /** A reading and the instant it has to denote. */
  datatype Reading = Reading(wall: int, instant: int)

  function Instants(readings: seq<Reading>): (r: seq<int>)
    ensures |r| == |readings| && forall i | 0 <= i < |r| :: r[i] == readings[i].instant
  {
    seq(|readings|, i requires 0 <= i < |readings| => readings[i].instant)
  }

  /** Less than a day apart, and one-to-one. */
  predicate OneToOne(readings: seq<Reading>) {
    && (forall i | 0 <= i < |readings| :: readings[i].wall - DAY < readings[i].instant < readings[i].wall + DAY)
    && (forall i, j | 0 <= i < |readings| && 0 <= j < |readings| ::
          readings[i].wall == readings[j].wall <==> readings[i].instant == readings[j].instant)
  }

  predicate Reads(readings: seq<Reading>, w: int) {
    exists i :: 0 <= i < |readings| && readings[i].wall == w
  }

  function IndexOf(readings: seq<Reading>, w: int): (i: nat)
    requires Reads(readings, w)
    ensures i < |readings| && readings[i].wall == w
  {
    if readings[0].wall == w then 0
    else
      assert Reads(readings[1..], w) by {
        var i :| 0 <= i < |readings| && readings[i].wall == w;
        assert readings[1..][i - 1].wall == w;
      }
      1 + IndexOf(readings[1..], w)
  }

  function ZoneAt(readings: seq<Reading>, w: int): int {
    if Reads(readings, w) then readings[IndexOf(readings, w)].instant else Avoiding(Instants(readings), w)
  }

  /** Fewer readings than milliseconds in a day always extend to a zone rule. */
  lemma ZoneThrough(readings: seq<Reading>) returns (z: int -> int)
    requires OneToOne(readings) && |readings| < DAY
    ensures IsZone(z) && forall i | 0 <= i < |readings| :: z(readings[i].wall) == readings[i].instant
  {
    z := w => ZoneAt(readings, w);
    forall w, w' | w != w' ensures z(w) != z(w') { ZoneSeparates(readings, w, w'); }
    forall w ensures w - DAY < z(w) < w + DAY { AvoidingAvoids(Instants(readings), w); }
    forall i | 0 <= i < |readings| ensures z(readings[i].wall) == readings[i].instant {
      assert Reads(readings, readings[i].wall);
    }
  }

  lemma ZoneSeparates(readings: seq<Reading>, w: int, w': int)
    requires OneToOne(readings) && w != w'
    ensures ZoneAt(readings, w) != ZoneAt(readings, w')
  {
    var taken := Instants(readings);
    AvoidingAvoids(taken, w);
    AvoidingAvoids(taken, w');
    if w < w' { AvoidingGrows(taken, w, w'); } else { AvoidingGrows(taken, w', w); }
    if Reads(readings, w) { assert taken[IndexOf(readings, w)] in taken; }
    if Reads(readings, w') { assert taken[IndexOf(readings, w')] in taken; }
  }

  // ---- Clashes -----------------------------------------------------------------------

  function WallOf(a: KeyIdentity, b: KeyIdentity): int
    requires IsParsed(a) && IsParsed(b)
  {
    if a.Wall? then a.millis else b.millis
  }

  function EpochOf(a: KeyIdentity, b: KeyIdentity): int
    requires IsParsed(a) && IsParsed(b)
  {
    if a.Wall? then b.millis else a.millis
  }

  /** The keys of two representations ask for one zone rule: no reading would have to be two instants,
      and no instant two readings. */
  predicate OneRule(current: seq<KeyIdentity>, prior: seq<KeyIdentity>)
    requires AllParsed(current) && AllParsed(prior) && |current| == |prior|
  {
    forall k, l | && 0 <= k < |current| && 0 <= l < |current|
                  && IsMixed(current[k], prior[k]) && IsMixed(current[l], prior[l]) ::
      WallOf(current[k], prior[k]) == WallOf(current[l], prior[l])
      <==> EpochOf(current[k], prior[k]) == EpochOf(current[l], prior[l])
  }

  function ReadingOf(a: KeyIdentity, b: KeyIdentity): Reading
    requires IsParsed(a) && IsParsed(b)
  {
    Reading(WallOf(a, b), EpochOf(a, b))
  }

  predicate IsReading(current: seq<KeyIdentity>, prior: seq<KeyIdentity>, k: int, r: Reading)
    requires AllParsed(current) && AllParsed(prior) && |current| == |prior|
  {
    0 <= k < |current| && IsMixed(current[k], prior[k]) && r == ReadingOf(current[k], prior[k])
  }

  /** The readings that a zone has to map to instants for the two lists to be stored alike. */
  function MixedReadings(current: seq<KeyIdentity>, prior: seq<KeyIdentity>): (r: seq<Reading>)
    requires AllParsed(current) && AllParsed(prior) && |current| == |prior|
    ensures |r| <= |current|
  {
    if current == [] then []
    else
      var n := |current| - 1;
      MixedReadings(current[..n], prior[..n])
      + if IsMixed(current[n], prior[n]) then [ReadingOf(current[n], prior[n])] else []
  }

  lemma {:induction false} ReadingComesFrom(current: seq<KeyIdentity>, prior: seq<KeyIdentity>, i: nat) returns (k: nat)
    requires AllParsed(current) && AllParsed(prior) && |current| == |prior| && i < |MixedReadings(current, prior)|
    ensures IsReading(current, prior, k, MixedReadings(current, prior)[i])
    decreases |current|
  {
    var n := |current| - 1;
    if i < |MixedReadings(current[..n], prior[..n])| {
      k := ReadingComesFrom(current[..n], prior[..n], i);
    } else {
      k := n;
    }
  }

  lemma {:induction false} MixedIsRead(current: seq<KeyIdentity>, prior: seq<KeyIdentity>, k: nat)
    requires AllParsed(current) && AllParsed(prior) && |current| == |prior|
    requires k < |current| && IsMixed(current[k], prior[k])
    ensures ReadingOf(current[k], prior[k]) in MixedReadings(current, prior)
    decreases |current|
  {
    var n := |current| - 1;
    if k < n { MixedIsRead(current[..n], prior[..n], k); }
  }

  lemma MixedPair(current: seq<KeyIdentity>, prior: seq<KeyIdentity>, k: int, r: Reading, l: int, t: Reading)
    requires AllParsed(current) && AllParsed(prior) && |current| == |prior|
    requires Clash(current, prior) && OneRule(current, prior)
    requires IsReading(current, prior, k, r) && IsReading(current, prior, l, t)
    ensures r.wall - DAY < r.instant < r.wall + DAY
    ensures r.wall == t.wall <==> r.instant == t.instant
  {
    assert current[k] in current && prior[k] in prior && Gap(current[k], prior[k]) < DAY;
  }

  lemma MixedAreOneToOne(current: seq<KeyIdentity>, prior: seq<KeyIdentity>)
    requires AllParsed(current) && AllParsed(prior) && |current| == |prior|
    requires Clash(current, prior) && OneRule(current, prior)
    ensures OneToOne(MixedReadings(current, prior))
  {
    hide Clash, OneRule, IsReading, AllParsed;
    var r := MixedReadings(current, prior);
    forall i, j | 0 <= i < |r| && 0 <= j < |r|
      ensures r[i].wall - DAY < r[i].instant < r[i].wall + DAY
      ensures r[i].wall == r[j].wall <==> r[i].instant == r[j].instant
    {
      var k := ReadingComesFrom(current, prior, i);
      var l := ReadingComesFrom(current, prior, j);
      MixedPair(current, prior, k, r[i], l, r[j]);
    }
  }

  /** In a zone, two parsed keys are stored alike when they are equal or one reads as the other. */
  lemma StoredAlike(a: KeyIdentity, b: KeyIdentity, z: int -> int)
    requires IsParsed(a) && IsParsed(b) && IsZone(z)
    ensures StoredKey(a, z) == StoredKey(b, z) <==> if IsMixed(a, b) then z(WallOf(a, b)) == EpochOf(a, b) else a == b
  {
  }

  ghost predicate SomeZoneIdentifies(current: seq<KeyIdentity>, prior: seq<KeyIdentity>) {
    exists z: int -> int :: IsZone(z) && StoredKeys(current, z) == StoredKeys(prior, z)
  }

  /** Two lists of DATE keys are the same in some time zone if and only if, key by key, they are equal
      or less than a day apart in different representations, and they ask for one zone rule. */
  lemma DatesCoincideExactly(current: seq<KeyIdentity>, prior: seq<KeyIdentity>)
    requires AllParsed(current) && AllParsed(prior) && |current| == |prior| < DAY
    ensures SomeZoneIdentifies(current, prior)
            <==> current == prior || (Clash(current, prior) && OneRule(current, prior))
  {
    if SomeZoneIdentifies(current, prior) {
      var z: int -> int :| IsZone(z) && StoredKeys(current, z) == StoredKeys(prior, z);
      IdentifiedMeansOneRule(current, prior, z);
    } else if current == prior {
      var z: int -> int := w => w;
      assert IsZone(z) && StoredKeys(current, z) == StoredKeys(prior, z);
    } else if Clash(current, prior) && OneRule(current, prior) {
      MixedAreOneToOne(current, prior);
      var z := ZoneThrough(MixedReadings(current, prior));
      ZoneIdentifies(current, prior, z);
    }
  }

  lemma ZoneIdentifies(current: seq<KeyIdentity>, prior: seq<KeyIdentity>, z: int -> int)
    requires AllParsed(current) && AllParsed(prior) && |current| == |prior| && Clash(current, prior) && IsZone(z)
    requires forall r | r in MixedReadings(current, prior) :: z(r.wall) == r.instant
    ensures SomeZoneIdentifies(current, prior)
  {
    hide IsZone;
    forall k | 0 <= k < |current| ensures StoredKeys(current, z)[k] == StoredKeys(prior, z)[k] {
      assert current[k] in current && prior[k] in prior;
      StoredAlike(current[k], prior[k], z);
      if IsMixed(current[k], prior[k]) { MixedIsRead(current, prior, k); }
    }
    assert StoredKeys(current, z) == StoredKeys(prior, z);
  }

  lemma IdentifiedMeansOneRule(current: seq<KeyIdentity>, prior: seq<KeyIdentity>, z: int -> int)
    requires AllParsed(current) && AllParsed(prior) && |current| == |prior| && IsZone(z)
    requires StoredKeys(current, z) == StoredKeys(prior, z)
    ensures current == prior || Clash(current, prior)
    ensures OneRule(current, prior)
  {
    forall k | 0 <= k < |current|
      ensures IsParsed(current[k]) && IsParsed(prior[k])
      ensures if IsMixed(current[k], prior[k]) then z(WallOf(current[k], prior[k])) == EpochOf(current[k], prior[k])
              else current[k] == prior[k]
    {
      assert current[k] in current && prior[k] in prior;
      assert StoredKeys(current, z)[k] == StoredKeys(prior, z)[k];
      StoredAlike(current[k], prior[k], z);
    }
    if !Clash(current, prior) { NoClashMeansApart(current, prior, z); }
  }

  // ---- Vertices ----------------------------------------------------------------------

  ghost predicate VerticesCoincide(a: Vertex, b: Vertex) {
    exists z: int -> int :: IsZone(z) && SameStoredKey(a, b, z)
  }

  /** What can be read off two vertices of one label whose DATE keys are dates. */
  predicate MayBeOne(a: Vertex, b: Vertex)
    requires Parses(a) && Parses(b)
  {
    && GroupOf(a) == GroupOf(b)
    && (ParsedDates(a); ParsedDates(b); |VertexDates(a)| == |VertexDates(b)|
        && (VertexDates(a) == VertexDates(b)
            || (Clash(VertexDates(a), VertexDates(b)) && OneRule(VertexDates(a), VertexDates(b)))))
  }

  /** An alarm about two vertices of a label, with any number of DATE keys, is real if and only if
      their other keys agree and their DATE keys ask for one zone rule. */
  lemma AlarmIsRealExactly(schema: Schema, a: Vertex, b: Vertex)
    requires WellFormed(schema, a) && WellFormed(schema, b) && a.vertexLabel == b.vertexLabel
    requires Parses(a) && Parses(b) && |VertexDates(a)| < DAY
    ensures VerticesCoincide(a, b) <==> MayBeOne(a, b)
  {
    var idsA, idsB := Identities(a.keys.value), Identities(b.keys.value);
    var datesA, datesB := VertexDates(a), VertexDates(b);
    ShapesAgree(schema, a, b);
    ParsedDates(a);
    ParsedDates(b);
    IdentitiesSplit(idsA, idsB);
    DatesCoincideExactly(datesA, datesB);
    hide IsZone, AllParsed, Clash, OneRule, Identities, DatesOf, PlainsOf;
    forall z: int -> int | IsZone(z)
      ensures SameStoredKey(a, b, z)
              <==> PlainsOf(idsA) == PlainsOf(idsB) && StoredKeys(datesA, z) == StoredKeys(datesB, z)
    {
      StoredKeysSplit(idsA, idsB, z);
    }
  }
}
