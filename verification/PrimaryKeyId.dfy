/** The escaped primary-key id of graph_utils.py, and when it can be taken apart again. */
module PrimaryKeyIds {
  import opened Wrappers

  const TICK: char := '`'

  /** `strategy` is the upper-cased `id_strategy`, empty when the schema gives none. */
  datatype VertexLabel = VertexLabel(strategy: string, primaryKeys: seq<string>, id: Option<string>)

  /** A property value as `str` renders it; `Null` and the empty string count as missing. */
  datatype Property = Null | Value(text: string)

  // ---- Escaping and joining ---------------------------------------------------

  /** Python's `s.replace(sep, "`" + sep)`. */
  function Escape(sep: char, s: string): string {
    if s == "" then ""
    else if s[0] == sep then [TICK, sep] + Escape(sep, s[1..])
    else [s[0]] + Escape(sep, s[1..])
  }

  /** Python's `sep.join(...)` of the escaped parts. */
  function Splice(sep: char, parts: seq<string>): string {
    if parts == [] then ""
    else if |parts| == 1 then Escape(sep, parts[0])
    else Escape(sep, parts[0]) + [sep] + Splice(sep, parts[1..])
  }

  function IdText(labelId: string, values: seq<string>): string {
    Splice(':', [labelId, Splice('!', values)])
  }

  predicate HasValue(properties: map<string, Property>, key: string) {
    key in properties && properties[key].Value? && properties[key].text != ""
  }

  /** The id that the schema and the properties supply, if they do. */
  function PrimaryKeyOf(vertexLabel: VertexLabel, properties: map<string, Property>): Option<string> {
    if && vertexLabel.strategy in {"", "PRIMARY_KEY"} && vertexLabel.primaryKeys != [] && vertexLabel.id.Some?
       && forall key | key in vertexLabel.primaryKeys :: HasValue(properties, key)
    then Some(IdText(vertexLabel.id.value, ValuesOf(vertexLabel.primaryKeys, properties)))
    else None
  }

  /** `primary_key_id`. */
  method PrimaryKeyId(vertexLabel: VertexLabel, properties: map<string, Property>) returns (r: Option<string>)
    ensures r == PrimaryKeyOf(vertexLabel, properties)
  {
    if vertexLabel.strategy != "" && vertexLabel.strategy != "PRIMARY_KEY" { return None; }
    if vertexLabel.primaryKeys == [] || vertexLabel.id.None? { return None; }
    hide Splice, Escape, ValuesOf;
    var joined := JoinValues(vertexLabel.primaryKeys, properties);
    if joined.None? { return None; }
    TwoParts(':', vertexLabel.id.value, joined.value);
    r := Some(Escape(':', vertexLabel.id.value) + ":" + Escape(':', joined.value));
  }

  method JoinValues(keys: seq<string>, properties: map<string, Property>) returns (joined: Option<string>)
    ensures joined.Some? <==> forall key | key in keys :: HasValue(properties, key)
    ensures joined.Some? ==> joined.value == Splice('!', ValuesOf(keys, properties))
  {
    var text := "";
    NoValues('!', properties);
    hide Splice, Escape, ValuesOf, HasValue;
    for n := 0 to |keys|
      invariant forall i | 0 <= i < n :: HasValue(properties, keys[i])
      invariant text == Splice('!', ValuesOf(keys[..n], properties))
    {
      HasValueIs(properties, keys[n]);
      if !HasValue(properties, keys[n]) { return None; }
      var escaped := Escape('!', properties[keys[n]].text);
      text := if n == 0 then escaped else text + "!" + escaped;
      MoreValues('!', keys, properties, n);
    }
    assert keys[..|keys|] == keys;
    joined := Some(text);
  }

  lemma NoValues(sep: char, properties: map<string, Property>)
    ensures Splice(sep, ValuesOf([], properties)) == ""
  {
  }

  lemma HasValueIs(properties: map<string, Property>, key: string)
    ensures HasValue(properties, key) ==> key in properties && properties[key].Value?
  {
  }

  lemma TwoParts(sep: char, a: string, b: string)
    ensures Splice(sep, [a, b]) == Escape(sep, a) + [sep] + Escape(sep, b)
  {
    assert [a, b][1..] == [b];
  }

  lemma IdIsNotEmpty(vertexLabel: VertexLabel, properties: map<string, Property>)
    ensures PrimaryKeyOf(vertexLabel, properties) != Some("")
  {
    if vertexLabel.id.Some? {
      var joined := Splice('!', ValuesOf(vertexLabel.primaryKeys, properties));
      TwoParts(':', vertexLabel.id.value, joined);
      assert |Splice(':', [vertexLabel.id.value, joined])| > 0;
    }
  }

  lemma MoreValues(sep: char, keys: seq<string>, properties: map<string, Property>, n: nat)
    requires n < |keys| && HasValue(properties, keys[n])
    ensures Splice(sep, ValuesOf(keys[..n + 1], properties))
         == if n == 0 then Escape(sep, properties[keys[n]].text)
            else Splice(sep, ValuesOf(keys[..n], properties)) + [sep] + Escape(sep, properties[keys[n]].text)
  {
    assert ValuesOf(keys[..n + 1], properties) == ValuesOf(keys[..n], properties) + [properties[keys[n]].text];
    SpliceMore(sep, ValuesOf(keys[..n], properties), properties[keys[n]].text);
  }

  function ValuesOf(keys: seq<string>, properties: map<string, Property>): (r: seq<string>)
    ensures |r| == |keys|
  {
    seq(|keys|, i requires 0 <= i < |keys| => if HasValue(properties, keys[i]) then properties[keys[i]].text else "")
  }

  lemma {:induction false} SpliceMore(sep: char, parts: seq<string>, part: string)
    ensures Splice(sep, parts + [part])
         == if parts == [] then Escape(sep, part) else Splice(sep, parts) + [sep] + Escape(sep, part)
  {
    hide Escape;
    if |parts| == 1 {
      assert (parts + [part])[1..] == [part];
    } else if |parts| > 1 {
      SpliceMore(sep, parts[1..], part);
      assert (parts + [part])[1..] == parts[1..] + [part];
      Associate(Escape(sep, parts[0]) + [sep], Splice(sep, parts[1..]), [sep] + Escape(sep, part));
    }
  }

  lemma Associate(a: string, b: string, c: string)
    ensures a + (b + c) == a + b + c
  {
  }

  // ---- Taking the id apart ----------------------------------------------------

  function Prefix(s: string, parts: seq<string>): (r: seq<string>)
    requires parts != []
    ensures |r| == |parts|
  {
    [s + parts[0]] + parts[1..]
  }

  /** Split at every separator that no backtick escapes, and drop the escapes. */
  function Unsplice(sep: char, s: string): (parts: seq<string>)
    ensures parts != []
  {
    if s == "" then [""]
    else if s[0] == TICK && |s| > 1 && s[1] == sep then Prefix([sep], Unsplice(sep, s[2..]))
    else if s[0] == sep then [""] + Unsplice(sep, s[1..])
    else Prefix([s[0]], Unsplice(sep, s[1..]))
  }

  predicate EndsInTick(s: string) {
    s != "" && s[|s| - 1] == TICK
  }

  /** What follows cannot be mistaken for the second half of an escape. */
  predicate Separable(sep: char, s: string, rest: string) {
    !EndsInTick(s) || rest == "" || rest[0] != sep
  }

  lemma UnspliceEscape(sep: char, tail: string)
    ensures Unsplice(sep, [TICK, sep] + tail) == Prefix([sep], Unsplice(sep, tail))
  {
    assert ([TICK, sep] + tail)[2..] == tail;
  }

  lemma UnspliceChar(sep: char, c: char, tail: string)
    requires c != sep && (c == TICK ==> tail == "" || tail[0] != sep)
    ensures Unsplice(sep, [c] + tail) == Prefix([c], Unsplice(sep, tail))
  {
    assert ([c] + tail)[1..] == tail;
  }

  lemma UnspliceSeparator(sep: char, tail: string)
    requires sep != TICK
    ensures Unsplice(sep, [sep] + tail) == [""] + Unsplice(sep, tail)
  {
    assert ([sep] + tail)[1..] == tail;
  }

  lemma PrefixTwice(a: string, b: string, parts: seq<string>)
    requires parts != []
    ensures Prefix(a, Prefix(b, parts)) == Prefix(a + b, parts)
  {
    assert a + (b + parts[0]) == a + b + parts[0];
  }

  lemma PrefixFresh(s: string, parts: seq<string>)
    ensures Prefix(s, [""] + parts) == [s] + parts
  {
    assert s + "" == s;
  }

  lemma UnspliceNothing(sep: char)
    ensures Unsplice(sep, "") == [""] + []
  {
  }

  lemma PrefixNothing(parts: seq<string>)
    requires parts != []
    ensures Prefix("", parts) == parts
  {
    assert "" + parts[0] == parts[0];
  }

  lemma EscapeThen(sep: char, s: string, rest: string)
    requires s != ""
    ensures Escape(sep, s) + rest
         == (if s[0] == sep then [TICK, sep] else [s[0]]) + (Escape(sep, s[1..]) + rest)
  {
  }

  lemma UnspliceFirstChar(sep: char, s: string, rest: string)
    requires sep != TICK && s != "" && Separable(sep, s, rest)
    ensures Unsplice(sep, Escape(sep, s) + rest) == Prefix([s[0]], Unsplice(sep, Escape(sep, s[1..]) + rest))
  {
    var tail := Escape(sep, s[1..]) + rest;
    if s[0] == TICK && tail != "" { TickIsNotAnEscape(sep, s, rest); }
    hide Unsplice, Prefix, Escape;
    EscapeThen(sep, s, rest);
    if s[0] == sep { UnspliceEscape(sep, tail); } else { UnspliceChar(sep, s[0], tail); }
  }

  lemma {:induction false} UnspliceEscaped(sep: char, s: string, rest: string)
    requires sep != TICK && Separable(sep, s, rest)
    ensures Unsplice(sep, Escape(sep, s) + rest) == Prefix(s, Unsplice(sep, rest))
  {
    hide Unsplice, Prefix;
    if s == "" {
      assert Escape(sep, s) + rest == rest;
      PrefixNothing(Unsplice(sep, rest));
    } else {
      hide Escape;
      UnspliceEscaped(sep, s[1..], rest);
      UnspliceFirstChar(sep, s, rest);
      PrefixTwice([s[0]], s[1..], Unsplice(sep, rest));
      assert [s[0]] + s[1..] == s;
    }
  }

  /** Escaped text never starts with a bare separator. */
  lemma TickIsNotAnEscape(sep: char, s: string, rest: string)
    requires sep != TICK && s != "" && s[0] == TICK && Separable(sep, s, rest)
    requires Escape(sep, s[1..]) + rest != ""
    ensures (Escape(sep, s[1..]) + rest)[0] != sep
  {
    if s[1..] == "" { assert EndsInTick(s); }
  }

  /** A value whose escape would swallow the separator after it. */
  predicate Swallows(values: seq<string>) {
    exists i :: 0 <= i < |values| - 1 && EndsInTick(values[i])
  }

  lemma UnspliceLast(sep: char, s: string)
    requires sep != TICK
    ensures Unsplice(sep, Escape(sep, s)) == [s]
  {
    hide Unsplice, Prefix;
    UnspliceEscaped(sep, s, "");
    assert Escape(sep, s) + "" == Escape(sep, s);
    UnspliceNothing(sep);
    PrefixFresh(s, []);
    assert [s] + [] == [s];
  }

  lemma UnspliceFirst(sep: char, s: string, tail: string)
    requires sep != TICK && !EndsInTick(s)
    ensures Unsplice(sep, Escape(sep, s) + [sep] + tail) == [s] + Unsplice(sep, tail)
  {
    hide Unsplice, Prefix;
    UnspliceSeparator(sep, tail);
    UnspliceEscaped(sep, s, [sep] + tail);
    PrefixFresh(s, Unsplice(sep, tail));
    assert Escape(sep, s) + ([sep] + tail) == Escape(sep, s) + [sep] + tail;
  }

  // ---- Parts that end in a backtick -------------------------------------------

  lemma EscapeCons(sep: char, c: char, s: string)
    ensures Escape(sep, [c] + s) == (if c == sep then [TICK, sep] else [c]) + Escape(sep, s)
  {
    assert ([c] + s)[1..] == s;
  }

  lemma {:induction false} EscapeAppend(sep: char, a: string, b: string)
    ensures Escape(sep, a + b) == Escape(sep, a) + Escape(sep, b)
  {
    if a == "" {
      assert a + b == b;
      assert Escape(sep, a) + Escape(sep, b) == Escape(sep, b);
    } else {
      var c, rest := a[0], a[1..];
      assert a == [c] + rest && a + b == [c] + (rest + b);
      hide Escape;
      EscapeAppend(sep, rest, b);
      EscapeCons(sep, c, rest);
      EscapeCons(sep, c, rest + b);
    }
  }

  lemma EscapeChar(sep: char, c: char)
    ensures Escape(sep, [c]) == if c == sep then [TICK, sep] else [c]
  {
    assert [c][1..] == "";
  }

  lemma EscapeEndingInTick(sep: char, v: string)
    requires sep != TICK && EndsInTick(v)
    ensures Escape(sep, v) == Escape(sep, v[..|v| - 1]) + [TICK]
  {
    assert v == v[..|v| - 1] + [TICK];
    EscapeAppend(sep, v[..|v| - 1], [TICK]);
    EscapeChar(sep, TICK);
  }

  /** The normal form of a list: every part that ends in a backtick runs together with the next one,
      with the separator between them instead of the backtick. */
  function Merged(sep: char, parts: seq<string>): (r: seq<string>)
    requires parts != []
    ensures r != []
  {
    if |parts| == 1 then parts
    else if EndsInTick(parts[0]) then Prefix(parts[0][..|parts[0]| - 1] + [sep], Merged(sep, parts[1..]))
    else [parts[0]] + Merged(sep, parts[1..])
  }

  lemma UnspliceSwallowed(sep: char, v: string, tail: string)
    requires sep != TICK && EndsInTick(v)
    ensures Unsplice(sep, Escape(sep, v) + [sep] + tail) == Prefix(v[..|v| - 1] + [sep], Unsplice(sep, tail))
  {
    hide Unsplice, Prefix;
    var u := v[..|v| - 1];
    EscapeEndingInTick(sep, v);
    assert Escape(sep, v) + [sep] + tail == Escape(sep, u) + ([TICK, sep] + tail);
    UnspliceEscaped(sep, u, [TICK, sep] + tail);
    UnspliceEscape(sep, tail);
    PrefixTwice(u, [sep], Unsplice(sep, tail));
  }

  /** What is read back from any list of parts. */
  lemma {:induction false} UnspliceMerges(sep: char, parts: seq<string>)
    requires sep != TICK && parts != []
    ensures Unsplice(sep, Splice(sep, parts)) == Merged(sep, parts)
  {
    hide Unsplice, Prefix;
    if |parts| == 1 {
      UnspliceLast(sep, parts[0]);
    } else {
      UnspliceMerges(sep, parts[1..]);
      if EndsInTick(parts[0]) {
        UnspliceSwallowed(sep, parts[0], Splice(sep, parts[1..]));
      } else {
        UnspliceFirst(sep, parts[0], Splice(sep, parts[1..]));
      }
    }
  }

  lemma {:induction false} MergingIsShorter(sep: char, parts: seq<string>)
    requires parts != []
    ensures |Merged(sep, parts)| <= |parts|
    ensures Merged(sep, parts) == parts <==> !Swallows(parts)
    ensures Merged(sep, parts) != parts ==> |Merged(sep, parts)| < |parts|
  {
    if |parts| > 1 {
      MergingIsShorter(sep, parts[1..]);
      assert Swallows(parts) <==> EndsInTick(parts[0]) || Swallows(parts[1..]) by { SwallowsFirst(parts); }
      assert [parts[0]] + parts[1..] == parts;
    }
  }

  lemma SwallowsFirst(parts: seq<string>)
    requires |parts| > 1
    ensures Swallows(parts) <==> EndsInTick(parts[0]) || Swallows(parts[1..])
  {
    if i :| 0 <= i < |parts| - 1 && EndsInTick(parts[i]) {
      if i > 0 { assert EndsInTick(parts[1..][i - 1]); }
    }
    if i :| 0 <= i < |parts[1..]| - 1 && EndsInTick(parts[1..][i]) { assert EndsInTick(parts[i + 1]); }
  }

  lemma SpliceMoreThanOne(sep: char, s: string, parts: seq<string>)
    requires parts != []
    ensures Splice(sep, [s] + parts) == Escape(sep, s) + [sep] + Splice(sep, parts)
  {
    assert ([s] + parts)[1..] == parts;
  }

  lemma SplicePrefix(sep: char, s: string, parts: seq<string>)
    requires parts != []
    ensures Splice(sep, Prefix(s, parts)) == Escape(sep, s) + Splice(sep, parts)
  {
    hide Escape;
    EscapeAppend(sep, s, parts[0]);
    if |parts| > 1 {
      assert Prefix(s, parts)[1..] == parts[1..];
      assert Escape(sep, s) + (Escape(sep, parts[0]) + [sep] + Splice(sep, parts[1..]))
          == Escape(sep, s) + Escape(sep, parts[0]) + [sep] + Splice(sep, parts[1..]);
    }
  }

  lemma SpliceSwallowed(sep: char, v: string, parts: seq<string>)
    requires sep != TICK && EndsInTick(v) && parts != []
    ensures Splice(sep, Prefix(v[..|v| - 1] + [sep], parts)) == Escape(sep, v) + [sep] + Splice(sep, parts)
  {
    hide Escape, Prefix, Splice;
    var u := v[..|v| - 1];
    SplicePrefix(sep, u + [sep], parts);
    EscapeAppend(sep, u, [sep]);
    EscapeChar(sep, sep);
    EscapeEndingInTick(sep, v);
    assert [TICK] + [sep] == [TICK, sep];
    Associate(Escape(sep, u), [TICK], [sep]);
  }

  /** A list and its normal form have one text. */
  lemma {:induction false} MergingKeepsTheText(sep: char, parts: seq<string>)
    requires sep != TICK && parts != []
    ensures Splice(sep, Merged(sep, parts)) == Splice(sep, parts)
  {
    if |parts| > 1 {
      hide Escape, Prefix, Splice, EndsInTick;
      var v, rest := parts[0], Merged(sep, parts[1..]);
      MergingKeepsTheText(sep, parts[1..]);
      assert parts == [v] + parts[1..];
      SpliceMoreThanOne(sep, v, parts[1..]);
      if EndsInTick(v) { SpliceSwallowed(sep, v, rest); } else { SpliceMoreThanOne(sep, v, rest); }
    }
  }

  /** Two lists have one text if and only if they have one normal form. */
  lemma TextsCollideExactly(sep: char, parts: seq<string>, parts': seq<string>)
    requires sep != TICK && parts != [] && parts' != []
    ensures Splice(sep, parts) == Splice(sep, parts') <==> Merged(sep, parts) == Merged(sep, parts')
  {
    hide Splice, Merged, Unsplice;
    UnspliceMerges(sep, parts);
    UnspliceMerges(sep, parts');
    MergingKeepsTheText(sep, parts);
    MergingKeepsTheText(sep, parts');
  }

  /** The key values can be read back if and only if none but the last ends in a backtick. */
  lemma KeysAreRecoverableExactly(values: seq<string>)
    requires values != []
    ensures Unsplice('!', Splice('!', values)) == values <==> !Swallows(values)
  {
    UnspliceMerges('!', values);
    MergingIsShorter('!', values);
  }

  /** The label id and the key values, in order, read back from an id. */
  function Recover(id: string): (string, seq<string>) {
    var parts := Unsplice(':', id);
    (parts[0], if |parts| == 2 then Unsplice('!', parts[1]) else [])
  }

  /** An id can be taken apart again if and only if neither the label id nor a value before the last
      one ends in a backtick, for any number of keys. */
  lemma IdIsRecoverableExactly(labelId: string, values: seq<string>)
    requires values != []
    ensures Recover(IdText(labelId, values)) == (labelId, values) <==> !EndsInTick(labelId) && !Swallows(values)
  {
    hide Splice, Unsplice;
    UnspliceMerges(':', [labelId, Splice('!', values)]);
    KeysAreRecoverableExactly(values);
  }

  /** The label id with the text of the key, when its last backtick swallows the colon between them. */
  function Swallowed(labelId: string, values: seq<string>): string
    requires EndsInTick(labelId)
  {
    labelId[..|labelId| - 1] + ":" + Splice('!', values)
  }

  /** Which ids coincide, for all labels and keys: those of one label id whose keys have one normal form,
      and those of two label ids that both end in a backtick and read alike without it. */
  lemma IdsCollideExactly(labelId: string, values: seq<string>, labelId': string, values': seq<string>)
    requires values != [] && values' != []
    ensures IdText(labelId, values) == IdText(labelId', values')
            <==> if EndsInTick(labelId) && EndsInTick(labelId')
                 then Swallowed(labelId, values) == Swallowed(labelId', values')
                 else labelId == labelId' && Merged('!', values) == Merged('!', values')
  {
    TextsCollideExactly(':', [labelId, Splice('!', values)], [labelId', Splice('!', values')]);
    TextsCollideExactly('!', values, values');
    TwoMerged(labelId, values);
    TwoMerged(labelId', values');
  }

  lemma TwoMerged(labelId: string, values: seq<string>)
    ensures Merged(':', [labelId, Splice('!', values)])
         == if EndsInTick(labelId) then [Swallowed(labelId, values)] else [labelId, Splice('!', values)]
  {
    hide Splice;
    assert [labelId, Splice('!', values)][1..] == [Splice('!', values)];
  }

  /** Where no backtick is in the way, different vertices have different ids. */
  lemma IdIsInjective(labelId: string, values: seq<string>, labelId': string, values': seq<string>)
    requires values != [] && !EndsInTick(labelId) && !Swallows(values)
    requires values' != [] && !EndsInTick(labelId') && !Swallows(values')
    requires IdText(labelId, values) == IdText(labelId', values')
    ensures labelId == labelId' && values == values'
  {
    IdIsRecoverableExactly(labelId, values);
    IdIsRecoverableExactly(labelId', values');
  }

  lemma {:induction false} MergedPrefix(sep: char, s: string, parts: seq<string>)
    requires parts != [] && !EndsInTick(s)
    ensures Merged(sep, Prefix(s, parts)) == Prefix(s, Merged(sep, parts))
  {
    var all := Prefix(s, parts);
    assert all[1..] == parts[1..];
    if |parts| > 1 {
      assert EndsInTick(all[0]) <==> EndsInTick(parts[0]);
      if EndsInTick(parts[0]) {
        assert all[0][..|all[0]| - 1] + [sep] == s + (parts[0][..|parts[0]| - 1] + [sep]);
        PrefixTwice(s, parts[0][..|parts[0]| - 1] + [sep], Merged(sep, parts[1..]));
      }
    }
  }

  lemma MergedFirst(sep: char, v: string, parts: seq<string>)
    requires parts != []
    ensures Merged(sep, [v] + parts)
         == if EndsInTick(v) then Prefix(v[..|v| - 1] + [sep], Merged(sep, parts)) else [v] + Merged(sep, parts)
  {
    assert ([v] + parts)[1..] == parts;
  }

  lemma {:induction false} MergedBehind(sep: char, before: seq<string>, parts: seq<string>, parts': seq<string>)
    requires parts != [] && parts' != [] && Merged(sep, parts) == Merged(sep, parts')
    ensures Merged(sep, before + parts) == Merged(sep, before + parts')
  {
    hide Merged, Prefix, EndsInTick;
    if before == [] {
      assert before + parts == parts && before + parts' == parts';
    } else {
      MergedBehind(sep, before[1..], parts, parts');
      MergedFirst(sep, before[0], before[1..] + parts);
      MergedFirst(sep, before[0], before[1..] + parts');
      assert before + parts == [before[0]] + (before[1..] + parts);
      assert before + parts' == [before[0]] + (before[1..] + parts');
    }
  }

  /** So two different vertices of one label can share an id, since the backtick itself is not escaped:
      with as many key values, a bang may stand in the one or in the other of two neighbours. */
  lemma TwoVerticesShareAnId(
    labelId: string, before: seq<string>, u: string, v: string, w: string, after: seq<string>)
    ensures var one, other := before + [u + "`", v + "!" + w] + after, before + [u + "!" + v + "`", w] + after;
            one != other && |one| == |other| && IdText(labelId, one) == IdText(labelId, other)
  {
    var one, other := [u + "`", v + "!" + w] + after, [u + "!" + v + "`", w] + after;
    SwallowingMerges(u, [v + "!" + w] + after);
    SwallowingMerges(u + "!" + v, [w] + after);
    assert Prefix(v + "!", [w] + after) == [v + "!" + w] + after;
    MergedPrefix('!', v + "!", [w] + after);
    PrefixTwice(u + "!", v + "!", Merged('!', [w] + after));
    assert u + "!" + (v + "!") == u + "!" + v + "!";
    assert one == [u + "`"] + ([v + "!" + w] + after);
    assert other == [u + "!" + v + "`"] + ([w] + after);
    MergedBehind('!', before, one, other);
    assert before + [u + "`", v + "!" + w] + after == before + one;
    assert before + [u + "!" + v + "`", w] + after == before + other;
    TextsCollideExactly('!', before + one, before + other);
    assert |(before + one)[|before|]| < |(before + other)[|before|]|;
  }

  lemma SwallowingMerges(u: string, parts: seq<string>)
    requires parts != []
    ensures Merged('!', [u + "`"] + parts) == Prefix(u + "!", Merged('!', parts))
  {
    assert ([u + "`"] + parts)[1..] == parts;
    assert (u + "`")[..|u|] == u;
  }
}
