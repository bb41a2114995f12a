/** The queries that graph_data_gremlin.py builds, and what the classifier says of each. */
module GremlinBuilders {
  import opened Wrappers
  import opened GremlinAnalysis
  import opened GremlinPrinter
  import opened GremlinChunks
  import opened GremlinSyntax
  import opened GremlinSpacing
  import opened GremlinGrammar
  import opened GremlinReads
  import opened GremlinQueries

  /** A JSON object in the order of its keys' insertion. */
  type Properties = seq<(string, Value)>

  function HasStepText(key: string, value: Value): string {
    if key == "id" then ".hasId(" + Groovy(value) + ")"
    else ".has(" + Groovy(Text(key)) + "," + Groovy(value) + ")"
  }

  function HasStepsText(m: Properties): string {
    Concat(seq(|m|, i requires 0 <= i < |m| => HasStepText(m[i].0, m[i].1)))
  }

  /** `_has_steps`. */
  method HasSteps(m: Properties) returns (text: string)
    ensures text == HasStepsText(m)
  {
    text := "";
    ghost var parts := seq(|m|, i requires 0 <= i < |m| => HasStepText(m[i].0, m[i].1));
    for n := 0 to |m|
      invariant text == Concat(parts[..n])
    {
      hide HasStepText, Concat;
      ConcatMore(parts, n);
      text := text + HasStepText(m[n].0, m[n].1);
    }
    assert parts[..|m|] == parts;
  }

  lemma ConcatMore(parts: seq<string>, n: nat)
    requires n < |parts|
    ensures Concat(parts[..n + 1]) == Concat(parts[..n]) + parts[n]
  {
    hide Concat;
    assert parts[..n + 1] == parts[..n] + [parts[n]];
    ConcatAppend(parts[..n], [parts[n]]);
    ConcatOne(parts[n]);
  }

  lemma ConcatOne(part: string)
    ensures Concat([part]) == part
  {
    assert [part][1..] == [];
    assert Concat([part]) == part + Concat([]);
    assert part + "" == part;
  }

  function VertexMatchQuery(name: Value, m: Properties): string {
    "g.V().hasLabel(" + Groovy(name) + ")" + HasStepsText(m)
  }

  function EdgeMatchQuery(source: Value, sourceMatch: Properties, name: Value, target: Value, targetMatch: Properties)
    : string
  {
    "g.V().hasLabel(" + Groovy(source) + ")" + HasStepsText(sourceMatch)
    + ".outE(" + Groovy(name) + ")"
    + ".where(inV().hasLabel(" + Groovy(target) + ")" + HasStepsText(targetMatch) + ")"
  }

  /** What the executor asks of a match. */
  const FIRST_TWO_IDS: string := ".limit(2).id()"

  // ---- The same queries as trees ---------------------------------------------------------

  function Call0(name: string): Step { Step(name, []) }
  function Call1(name: string, v: Value): Step { Step(name, [Given(v)]) }
  function Call2(name: string, v: Value, w: Value): Step { Step(name, [Given(v), Given(w)]) }

  function HasTree(key: string, value: Value): Step {
    if key == "id" then Call1("hasId", value) else Call2("has", Text(key), value)
  }

  function HasTrees(m: Properties): seq<Step> {
    seq(|m|, i requires 0 <= i < |m| => HasTree(m[i].0, m[i].1))
  }

  function VertexMatchTree(name: Value, m: Properties): seq<Step> {
    [Call0("V"), Call1("hasLabel", name)] + HasTrees(m)
  }

  function EdgeMatchBack(name: Value, where: Arg): seq<Step> {
    [Call1("outE", name), Step("where", [where])]
  }

  function EdgeMatchTree(source: Value, sourceMatch: Properties, name: Value, target: Value, targetMatch: Properties)
    : seq<Step>
  {
    VertexMatchTree(source, sourceMatch)
    + EdgeMatchBack(name, Anonymous("inV", [], [Call1("hasLabel", target)] + HasTrees(targetMatch)))
  }

  const FIRST_TWO_IDS_TREE: seq<Step> := [Call1("limit", Integer(2)), Call0("id")]

  lemma {:induction false} ConcatAppend(a: seq<string>, b: seq<string>)
    ensures Concat(a + b) == Concat(a) + Concat(b)
  {
    if a == [] {
      assert a + b == b;
    } else {
      ConcatAppend(a[1..], b);
      assert (a + b)[1..] == a[1..] + b;
      assert a[0] + (Concat(a[1..]) + Concat(b)) == a[0] + Concat(a[1..]) + Concat(b);
    }
  }

  function TreesText(steps: seq<Step>): string {
    Concat(StepTexts(steps))
  }

  lemma TreesAppend(a: seq<Step>, b: seq<Step>)
    ensures TreesText(a + b) == TreesText(a) + TreesText(b)
  {
    hide StepText, Concat;
    assert StepTexts(a + b) == StepTexts(a) + StepTexts(b);
    ConcatAppend(StepTexts(a), StepTexts(b));
  }

  lemma OneTree(s: Step)
    ensures TreesText([s]) == StepText(s)
  {
    hide StepText, Concat;
    assert StepTexts([s]) == [StepText(s)];
    ConcatOne(StepText(s));
  }

  lemma TwoTrees(a: Step, b: Step)
    ensures TreesText([a, b]) == StepText(a) + StepText(b)
  {
    hide StepText, TreesText;
    OneTree(a);
    OneTree(b);
    TreesAppend([a], [b]);
    assert [a] + [b] == [a, b];
  }

  lemma Text0(name: string)
    ensures StepText(Call0(name)) == "." + name + "()"
  {
    assert Join(",", []) == "";
    assert "." + (name + ("(" + "" + ")")) == "." + name + "()";
  }

  lemma Text1(name: string, a: Arg)
    ensures StepText(Step(name, [a])) == "." + name + "(" + ArgText(a) + ")"
  {
    hide ArgText;
    var s := Step(name, [a]);
    assert seq(|s.args|, i requires 0 <= i < |s.args| => ArgText(s.args[i])) == [ArgText(a)];
    assert Join(",", [ArgText(a)]) == ArgText(a);
    assert "." + (name + ("(" + ArgText(a) + ")")) == "." + name + "(" + ArgText(a) + ")";
  }

  lemma Text2(name: string, a: Arg, b: Arg)
    ensures StepText(Step(name, [a, b])) == "." + name + "(" + ArgText(a) + "," + ArgText(b) + ")"
  {
    hide ArgText;
    var s := Step(name, [a, b]);
    assert seq(|s.args|, i requires 0 <= i < |s.args| => ArgText(s.args[i])) == [ArgText(a), ArgText(b)];
    assert [ArgText(a), ArgText(b)][1..] == [ArgText(b)];
    assert Join(",", [ArgText(b)]) == ArgText(b);
    assert Join(",", [ArgText(a), ArgText(b)]) == ArgText(a) + "," + ArgText(b);
    assert "." + (name + ("(" + (ArgText(a) + "," + ArgText(b)) + ")"))
        == "." + name + "(" + ArgText(a) + "," + ArgText(b) + ")";
  }

  lemma HasTreeText(key: string, value: Value)
    ensures StepText(HasTree(key, value)) == HasStepText(key, value)
  {
    hide StepText, Groovy;
    GivenText(value);
    if key == "id" {
      Text1("hasId", Given(value));
      assert "." + "hasId" + "(" == ".hasId(";
    } else {
      GivenText(Text(key));
      Text2("has", Given(Text(key)), Given(value));
      assert "." + "has" + "(" == ".has(";
    }
  }

  lemma GivenText(v: Value)
    ensures ArgText(Given(v)) == Groovy(v)
  {
  }

  lemma HasTreesText(m: Properties)
    ensures TreesText(HasTrees(m)) == HasStepsText(m)
  {
    hide StepText, HasStepText, HasTree, Concat;
    forall i | 0 <= i < |m| ensures StepTexts(HasTrees(m))[i] == HasStepText(m[i].0, m[i].1) {
      HasTreeText(m[i].0, m[i].1);
    }
    assert StepTexts(HasTrees(m)) == seq(|m|, i requires 0 <= i < |m| => HasStepText(m[i].0, m[i].1));
  }

  lemma VertexMatchText(name: Value, m: Properties)
    ensures QueryText(VertexMatchTree(name, m)) == VertexMatchQuery(name, m)
  {
    hide StepText, Groovy, HasStepsText, HasTrees, TreesText;
    TreesAppend([Call0("V"), Call1("hasLabel", name)], HasTrees(m));
    TwoTrees(Call0("V"), Call1("hasLabel", name));
    Text0("V");
    Text1("hasLabel", Given(name));
    GivenText(name);
    HasTreesText(m);
    QueryIsG(VertexMatchTree(name, m));
    assert "g" + ("." + "V" + "()" + ("." + "hasLabel" + "(" + Groovy(name) + ")") + HasStepsText(m))
        == "g.V().hasLabel(" + Groovy(name) + ")" + HasStepsText(m);
  }

  lemma QueryIsG(steps: seq<Step>)
    ensures QueryText(steps) == "g" + TreesText(steps)
  {
  }

  lemma QueryMore(a: seq<Step>, b: seq<Step>)
    ensures QueryText(a + b) == QueryText(a) + TreesText(b)
  {
    hide TreesText;
    QueryIsG(a);
    QueryIsG(a + b);
    TreesAppend(a, b);
    assert "g" + (TreesText(a) + TreesText(b)) == "g" + TreesText(a) + TreesText(b);
  }

  lemma WhereText(target: Value, targetMatch: Properties)
    ensures ArgText(Anonymous("inV", [], [Call1("hasLabel", target)] + HasTrees(targetMatch)))
         == "inV().hasLabel(" + Groovy(target) + ")" + HasStepsText(targetMatch)
  {
    hide StepText, Groovy, HasStepsText, HasTrees, TreesText;
    var rest := [Call1("hasLabel", target)] + HasTrees(targetMatch);
    AnonymousText("inV", rest);
    TreesAppend([Call1("hasLabel", target)], HasTrees(targetMatch));
    OneTree(Call1("hasLabel", target));
    Text1("hasLabel", Given(target));
    GivenText(target);
    HasTreesText(targetMatch);
    assert "inV" + "()" + ("." + "hasLabel" + "(" + Groovy(target) + ")" + HasStepsText(targetMatch))
        == "inV().hasLabel(" + Groovy(target) + ")" + HasStepsText(targetMatch);
  }

  lemma AnonymousText(name: string, rest: seq<Step>)
    ensures ArgText(Anonymous(name, [], rest)) == name + "()" + TreesText(rest)
  {
    hide StepText;
    assert Join(",", []) == "";
    assert seq(|rest|, i requires 0 <= i < |rest| => StepText(rest[i])) == StepTexts(rest);
    assert name + ("(" + "" + ")") == name + "()";
  }

  lemma EdgeMatchText(source: Value, sourceMatch: Properties, name: Value, target: Value, targetMatch: Properties)
    ensures QueryText(EdgeMatchTree(source, sourceMatch, name, target, targetMatch))
         == EdgeMatchQuery(source, sourceMatch, name, target, targetMatch)
  {
    hide StepText, ArgText, Groovy, HasStepsText, HasTrees, TreesText, VertexMatchTree, QueryText;
    var where := Anonymous("inV", [], [Call1("hasLabel", target)] + HasTrees(targetMatch));
    VertexMatchText(source, sourceMatch);
    QueryMore(VertexMatchTree(source, sourceMatch), [Call1("outE", name), Step("where", [where])]);
    TwoTrees(Call1("outE", name), Step("where", [where]));
    Text1("outE", Given(name));
    GivenText(name);
    Text1("where", where);
    WhereText(target, targetMatch);
    EdgeMatchParts(VertexMatchQuery(source, sourceMatch), Groovy(name), Groovy(target), HasStepsText(targetMatch));
  }

  lemma EdgeMatchParts(front: string, name: string, target: string, rest: string)
    ensures front + ("." + "outE" + "(" + name + ")"
                     + ("." + "where" + "(" + ("inV().hasLabel(" + target + ")" + rest) + ")"))
         == front + ".outE(" + name + ")" + ".where(inV().hasLabel(" + target + ")" + rest + ")"
  {
    var byLabel := ".outE(" + name + ")";
    var inside := "inV().hasLabel(" + target + ")" + rest;
    assert "." + "outE" + "(" + name + ")" == byLabel by { assert "." + "outE" + "(" == ".outE("; }
    assert "." + "where" + "(" + inside + ")" == ".where(" + inside + ")" by {
      assert "." + "where" + "(" == ".where(";
    }
    WhereParts(front + byLabel, target, rest);
    Associate(front, byLabel, ".where(" + inside + ")");
    Associate(front, ".outE(" + name, ")");
    Associate(front, ".outE(", name);
  }

  lemma WhereParts(front: string, target: string, rest: string)
    ensures front + (".where(" + ("inV().hasLabel(" + target + ")" + rest) + ")")
         == front + ".where(inV().hasLabel(" + target + ")" + rest + ")"
  {
    assert ".where(" + ("inV().hasLabel(" + target + ")" + rest) + ")"
             == ".where(inV().hasLabel(" + target + ")" + rest + ")";
    Associate(front, ".where(inV().hasLabel(" + target + ")" + rest, ")");
    Associate(front, ".where(inV().hasLabel(" + target + ")", rest);
    Associate(front, ".where(inV().hasLabel(" + target, ")");
    Associate(front, ".where(inV().hasLabel(", target);
  }

  lemma FirstTwoIdsText()
    ensures TreesText(FIRST_TWO_IDS_TREE) == FIRST_TWO_IDS
  {
    hide StepText;
    TwoTrees(Call1("limit", Integer(2)), Call0("id"));
    Text1("limit", Given(Integer(2)));
    Text0("id");
    assert Digits(2) == "2";
    assert Groovy(Integer(2)) == "2";
    GivenText(Integer(2));
  }

  // ---- Matches are safe -----------------------------------------------------------------------

  predicate PlainProperties(m: Properties) {
    forall i | 0 <= i < |m| :: PlainValue(m[i].1)
  }

  /** Some key that is printed, or some value, holds a marker. */
  predicate MarkedProperties(m: Properties) {
    exists i :: 0 <= i < |m| && ((m[i].0 != "id" && HasMarker(m[i].0)) || MarkedValue(m[i].1))
  }

  lemma ReadNames()
    ensures forall s | s in {"V", "hasLabel", "has", "hasId", "outE", "where", "limit", "id"} ::
              IsStepName(s) && IsReadStep(Lower(s))
    ensures IsStepName("inV") && Lower("inV") in ANONYMOUS_READ_METHODS
    ensures Lower("V") == "v"
  {
    ReadName("V", "v");
    ReadName("hasLabel", "haslabel");
    ReadName("has", "has");
    ReadName("hasId", "hasid");
    ReadName("outE", "oute");
    ReadName("where", "where");
    ReadName("limit", "limit");
    ReadName("id", "id");
    ReadName("inV", "inv");
  }

  lemma ReadName(name: string, lowered: string)
    requires (name, lowered) in
             {("V", "v"), ("hasLabel", "haslabel"), ("has", "has"), ("hasId", "hasid"), ("outE", "oute"),
              ("where", "where"), ("limit", "limit"), ("id", "id"), ("inV", "inv")}
    ensures Lower(name) == lowered && IsStepName(name) && IsReadStep(lowered)
  {
    assert Lower(name) == lowered;
    assert lowered in READ_METHODS;
    assert IsIdentifierText(name);
    assert lowered !in LITERALS;
  }

  lemma HasTreesAreReads(m: Properties)
    ensures ReadSteps(HasTrees(m))
    ensures PlainSteps(HasTrees(m)) <==> PlainProperties(m)
    ensures MarkedSteps(HasTrees(m)) <==> MarkedProperties(m)
  {
    hide IsStepName, IsReadStep, HasMarker, PlainValue;
    ReadNames();
    forall i | 0 <= i < |m|
      ensures ReadStep(HasTree(m[i].0, m[i].1)) && (PlainStep(HasTrees(m)[i]) <==> PlainValue(m[i].1))
    {
      TextIsPlain(m[i].0);
      PlainCall1("hasId", m[i].1);
      PlainCall2("has", Text(m[i].0), m[i].1);
    }
    forall i | 0 <= i < |m|
      ensures MarkedStep(HasTrees(m)[i]) <==> (m[i].0 != "id" && HasMarker(m[i].0)) || MarkedValue(m[i].1)
    {
      MarkedCall1("hasId", m[i].1);
      MarkedCall2("has", Text(m[i].0), m[i].1);
    }
  }

  lemma TextIsPlain(s: string)
    ensures PlainValue(Text(s))
  {
  }

  lemma ReadCall1(name: string, v: Value)
    requires IsStepName(name) && IsReadStep(Lower(name))
    ensures ReadStep(Call1(name, v))
  {
    hide IsStepName, IsReadStep;
  }

  lemma PlainCall1(name: string, v: Value)
    ensures PlainStep(Call1(name, v)) <==> PlainValue(v)
  {
    hide PlainValue;
    var s := Call1(name, v);
    assert PlainArg(s.args[0]) <==> PlainValue(v);
  }

  lemma PlainCall2(name: string, v: Value, w: Value)
    ensures PlainStep(Call2(name, v, w)) <==> PlainValue(v) && PlainValue(w)
  {
    hide PlainValue;
    var s := Call2(name, v, w);
    assert PlainArg(s.args[0]) <==> PlainValue(v);
    assert PlainArg(s.args[1]) <==> PlainValue(w);
  }

  lemma MarkedCall1(name: string, v: Value)
    ensures MarkedStep(Call1(name, v)) <==> MarkedValue(v)
  {
    var s := Call1(name, v);
    assert MarkedArg(s.args[0]) <==> MarkedValue(v);
  }

  lemma MarkedCall2(name: string, v: Value, w: Value)
    ensures MarkedStep(Call2(name, v, w)) <==> MarkedValue(v) || MarkedValue(w)
  {
    var s := Call2(name, v, w);
    assert MarkedArg(s.args[0]) <==> MarkedValue(v);
    assert MarkedArg(s.args[1]) <==> MarkedValue(w);
  }

  lemma PlainAppend(a: seq<Step>, b: seq<Step>)
    ensures PlainSteps(a + b) <==> PlainSteps(a) && PlainSteps(b)
  {
    hide PlainStep;
    if PlainSteps(a + b) {
      assert forall i | 0 <= i < |a| :: a[i] == (a + b)[i];
      assert forall i | 0 <= i < |b| :: b[i] == (a + b)[|a| + i];
    }
  }

  lemma ReadsAppend(a: seq<Step>, b: seq<Step>)
    requires ReadSteps(a) && ReadSteps(b)
    ensures ReadSteps(a + b)
    ensures PlainSteps(a + b) <==> PlainSteps(a) && PlainSteps(b)
    ensures MarkedSteps(a + b) <==> MarkedSteps(a) || MarkedSteps(b)
  {
    hide ReadStep, MarkedStep, PlainStep;
    PlainAppend(a, b);
    if i :| 0 <= i < |a| && MarkedStep(a[i]) { assert MarkedStep((a + b)[i]); }
    if i :| 0 <= i < |b| && MarkedStep(b[i]) { assert MarkedStep((a + b)[|a| + i]); }
  }

  lemma VertexMatchReads(name: Value, m: Properties)
    ensures ReadSteps(VertexMatchTree(name, m))
    ensures PlainSteps(VertexMatchTree(name, m)) <==> PlainValue(name) && PlainProperties(m)
    ensures MarkedSteps(VertexMatchTree(name, m)) <==> MarkedValue(name) || MarkedProperties(m)
  {
    hide IsStepName, IsReadStep, HasTrees, PlainProperties, MarkedProperties, PlainValue;
    ReadNames();
    HasTreesAreReads(m);
    var front := [Call0("V"), Call1("hasLabel", name)];
    ReadCall1("hasLabel", name);
    assert ReadStep(Call0("V"));
    MarkedCall1("hasLabel", name);
    PlainCall1("hasLabel", name);
    assert PlainSteps(front) <==> PlainValue(name) by {
      assert PlainStep(front[0]);
      assert PlainStep(front[1]) <==> PlainValue(name);
    }
    assert MarkedSteps(front) <==> MarkedValue(name) by {
      assert !MarkedStep(front[0]);
      assert MarkedStep(front[1]) <==> MarkedValue(name);
    }
    ReadsAppend(front, HasTrees(m));
  }

  lemma FirstTwoIdsReads()
    ensures ReadSteps(FIRST_TWO_IDS_TREE) && PlainSteps(FIRST_TWO_IDS_TREE) && !MarkedSteps(FIRST_TWO_IDS_TREE)
  {
    hide IsStepName, IsReadStep;
    ReadNames();
    PlainCall1("limit", Integer(2));
    MarkedCall1("limit", Integer(2));
  }

  /** A vertex match is never unsafe, and it is safe if and only if its numbers are plain and no printed
      string holds a marker. */
  lemma VertexMatchIsSafe(name: Value, m: Properties)
    ensures Classify(VertexMatchQuery(name, m) + FIRST_TWO_IDS)
         == if PlainValue(name) && PlainProperties(m) && !MarkedValue(name) && !MarkedProperties(m)
            then Safe else Uncertain
  {
    hide *;
    VertexMatchReads(name, m);
    VertexMatchStartsAtV(name, m);
    MatchIsSafe(VertexMatchTree(name, m));
    VertexMatchText(name, m);
  }

  lemma VertexMatchStartsAtV(name: Value, m: Properties)
    ensures VertexMatchTree(name, m) != [] && Lower(VertexMatchTree(name, m)[0].name) == "v"
  {
  }

  lemma MatchIsSafe(steps: seq<Step>)
    requires ReadSteps(steps) && steps != [] && Lower(steps[0].name) == "v"
    ensures Classify(QueryText(steps) + FIRST_TWO_IDS)
         == if PlainSteps(steps) && !MarkedSteps(steps) then Safe else Uncertain
  {
    hide ReadSteps, PlainSteps, MarkedSteps, QueryText, Classify, TreesText;
    FirstTwoIdsReads();
    ReadsAppend(steps, FIRST_TWO_IDS_TREE);
    FirstTwoIdsText();
    QueryMore(steps, FIRST_TWO_IDS_TREE);
    ReadQueryIsSafe(steps + FIRST_TWO_IDS_TREE);
  }

  lemma WhereReads(target: Value, targetMatch: Properties)
    ensures var where := Anonymous("inV", [], [Call1("hasLabel", target)] + HasTrees(targetMatch));
            && ReadArg(where)
            && (PlainArg(where) <==> PlainValue(target) && PlainProperties(targetMatch))
            && (MarkedArg(where) <==> MarkedValue(target) || MarkedProperties(targetMatch))
  {
    hide IsStepName, IsReadStep, HasTrees, PlainProperties, MarkedProperties, PlainValue;
    ReadNames();
    HasTreesAreReads(targetMatch);
    var front := [Call1("hasLabel", target)];
    ReadCall1("hasLabel", target);
    PlainCall1("hasLabel", target);
    assert PlainSteps(front) <==> PlainValue(target) by { assert PlainStep(front[0]) <==> PlainValue(target); }
    MarkedCall1("hasLabel", target);
    assert MarkedSteps(front) <==> MarkedValue(target) by { assert MarkedStep(front[0]) <==> MarkedValue(target); }
    ReadsAppend(front, HasTrees(targetMatch));
  }

  /** Every number in an edge match is plain. */
  predicate PlainMatch(source: Value, sourceMatch: Properties, name: Value, target: Value, targetMatch: Properties) {
    && PlainValue(source) && PlainProperties(sourceMatch) && PlainValue(name)
    && PlainValue(target) && PlainProperties(targetMatch)
  }

  /** Some printed string in an edge match holds a marker. */
  predicate MarkedMatch(source: Value, sourceMatch: Properties, name: Value, target: Value, targetMatch: Properties) {
    || MarkedValue(source) || MarkedProperties(sourceMatch) || MarkedValue(name)
    || MarkedValue(target) || MarkedProperties(targetMatch)
  }

  lemma EdgeMatchBackReads(name: Value, where: Arg)
    requires ReadArg(where)
    ensures ReadSteps(EdgeMatchBack(name, where))
    ensures PlainSteps(EdgeMatchBack(name, where)) <==> PlainValue(name) && PlainArg(where)
    ensures MarkedSteps(EdgeMatchBack(name, where)) <==> MarkedValue(name) || MarkedArg(where)
  {
    hide IsStepName, IsReadStep, ReadArg, MarkedArg, PlainArg, PlainValue, MarkedValue;
    ReadNames();
    var back := EdgeMatchBack(name, where);
    GivenReads(name);
    PlainCall1("outE", name);
    MarkedCall1("outE", name);
    assert back[1].args[0] == where;
    assert PlainStep(back[0]) <==> PlainValue(name);
    assert PlainStep(back[1]) <==> PlainArg(where);
    assert MarkedStep(back[0]) <==> MarkedValue(name);
    assert MarkedStep(back[1]) <==> MarkedArg(where);
  }

  lemma EdgeMatchReads(source: Value, sourceMatch: Properties, name: Value, target: Value, targetMatch: Properties)
    ensures var steps := EdgeMatchTree(source, sourceMatch, name, target, targetMatch);
            && ReadSteps(steps) && steps != [] && Lower(steps[0].name) == "v"
            && (PlainSteps(steps) <==> PlainMatch(source, sourceMatch, name, target, targetMatch))
            && (MarkedSteps(steps) <==> MarkedMatch(source, sourceMatch, name, target, targetMatch))
  {
    hide *;
    var where := Anonymous("inV", [], [Call1("hasLabel", target)] + HasTrees(targetMatch));
    var front, back := VertexMatchTree(source, sourceMatch), EdgeMatchBack(name, where);
    VertexMatchReads(source, sourceMatch);
    VertexMatchStartsAtV(source, sourceMatch);
    WhereReads(target, targetMatch);
    EdgeMatchBackReads(name, where);
    ReadsAppend(front, back);
    EdgeMatchIs(source, sourceMatch, name, target, targetMatch);
  }

  lemma EdgeMatchIs(source: Value, sourceMatch: Properties, name: Value, target: Value, targetMatch: Properties)
    ensures EdgeMatchTree(source, sourceMatch, name, target, targetMatch)
         == VertexMatchTree(source, sourceMatch)
            + EdgeMatchBack(name, Anonymous("inV", [], [Call1("hasLabel", target)] + HasTrees(targetMatch)))
    ensures PlainMatch(source, sourceMatch, name, target, targetMatch)
            <==> && PlainValue(source) && PlainProperties(sourceMatch) && PlainValue(name)
                 && PlainValue(target) && PlainProperties(targetMatch)
    ensures MarkedMatch(source, sourceMatch, name, target, targetMatch)
            <==> || MarkedValue(source) || MarkedProperties(sourceMatch) || MarkedValue(name)
                 || MarkedValue(target) || MarkedProperties(targetMatch)
  {
    hide HasTrees, PlainProperties, MarkedProperties, PlainValue, MarkedValue, VertexMatchTree;
  }

  lemma GivenReads(v: Value)
    ensures ReadArg(Given(v))
  {
  }

  /** An edge match is never unsafe, and it is safe if and only if its numbers are plain and no printed
      string holds a marker. */
  lemma EdgeMatchIsSafe(source: Value, sourceMatch: Properties, name: Value, target: Value, targetMatch: Properties)
    ensures Classify(EdgeMatchQuery(source, sourceMatch, name, target, targetMatch) + FIRST_TWO_IDS)
         == if && PlainMatch(source, sourceMatch, name, target, targetMatch)
               && !MarkedMatch(source, sourceMatch, name, target, targetMatch)
            then Safe else Uncertain
  {
    hide *;
    EdgeMatchReads(source, sourceMatch, name, target, targetMatch);
    MatchIsSafe(EdgeMatchTree(source, sourceMatch, name, target, targetMatch));
    EdgeMatchText(source, sourceMatch, name, target, targetMatch);
  }

  // ---- Writes are unsafe -------------------------------------------------------------------------

  datatype WriteOperation =
    | CreateVertex(name: Value, id: Option<Value>, properties: Properties)
    | CreateEdge(source: Value, target: Value, name: Value, properties: Properties)
    | DeleteVertex(target: Value, cascade: bool)
    | DeleteEdge(target: Value)

  predicate HasId(id: Option<Value>) {
    id.Some? && id.value != Null && id.value != Text("")
  }

  function PropertyTree(key: string, value: Value): Step {
    Call2("property", Text(key), value)
  }

  function PropertyTrees(m: Properties): seq<Step> {
    seq(|m|, i requires 0 <= i < |m| => PropertyTree(m[i].0, m[i].1))
  }

  function CreateVertexTree(name: Value, id: Option<Value>): seq<Step> {
    [Call1("addV", name)]
    + if HasId(id) then [Step("property", [Member("T", "id"), Given(id.value)])] else []
  }

  function CreateEdgeTree(source: Value, target: Value, name: Value): seq<Step> {
    [Call1("V", source), Call1("as", Text("s")), Call1("V", target), Call1("addE", name), Call1("from", Text("s"))]
  }

  function WriteTree(op: WriteOperation): seq<Step> {
    match op
    case CreateVertex(name, id, properties) => CreateVertexTree(name, id) + PropertyTrees(properties)
    case CreateEdge(source, target, name, properties) =>
      CreateEdgeTree(source, target, name) + PropertyTrees(properties)
    case DeleteVertex(target, cascade) =>
      [Call1("V", target)]
      + (if cascade then [] else [Step("not", [Anonymous("bothE", [], [])])])
      + [Call0("drop")]
    case DeleteEdge(target) => [Call1("E", target), Call0("drop")]
  }

  method PropertySteps(query: string, properties: Properties, ghost before: seq<Step>) returns (q: string)
    requires query == QueryText(before)
    ensures q == QueryText(before + PropertyTrees(properties))
  {
    hide QueryText, StepText, Groovy;
    q := query;
    ghost var trees := PropertyTrees(properties);
    assert before + trees[..0] == before;
    for n := 0 to |properties|
      invariant q == QueryText(before + trees[..n])
    {
      var (key, value) := properties[n];
      ghost var next := before + trees[..n];
      QueryMore(next, [trees[n]]);
      OneTree(trees[n]);
      GivenText(Text(key));
      GivenText(value);
      Text2("property", Given(Text(key)), Given(value));
      assert before + trees[..n + 1] == next + [trees[n]];
      assert "." + "property" + "(" == ".property(";
      q := q + (".property(" + Groovy(Text(key)) + "," + Groovy(value) + ")");
    }
    assert trees[..|properties|] == trees;
  }

  method CreateVertexQuery(name: Value, id: Option<Value>, properties: Properties) returns (q: string)
    ensures q == QueryText(WriteTree(CreateVertex(name, id, properties)))
  {
    hide QueryText, StepText, Groovy, TreesText;
    q := "g.addV(" + Groovy(name) + ")";
    QueryIsG([Call1("addV", name)]);
    OneTree(Call1("addV", name));
    Text1("addV", Given(name));
    GivenText(name);
    assert "g" + ("." + "addV" + "(" + Groovy(name) + ")") == q;
    if HasId(id) {
      var more := Step("property", [Member("T", "id"), Given(id.value)]);
      QueryMore([Call1("addV", name)], [more]);
      OneTree(more);
      Text2("property", Member("T", "id"), Given(id.value));
      GivenText(id.value);
      assert "T" + ("." + "id") == "T.id";
      assert "." + "property" + "(" + "T.id" + "," == ".property(T.id,";
      q := q + (".property(T.id," + Groovy(id.value) + ")");
    } else {
      assert [Call1("addV", name)] + [] == [Call1("addV", name)];
    }
    q := PropertySteps(q, properties, CreateVertexTree(name, id));
  }

  lemma CreateEdgeText(source: Value, target: Value, name: Value)
    ensures QueryText(CreateEdgeTree(source, target, name))
         == "g.V(" + Groovy(source) + ").as('s')" + ".V(" + Groovy(target) + ")"
            + ".addE(" + Groovy(name) + ").from('s')"
  {
    hide QueryText, StepText, Groovy, TreesText, ArgText;
    var a, b := [Call1("V", source), Call1("as", Text("s"))], [Call1("V", target)];
    var c := [Call1("addE", name), Call1("from", Text("s"))];
    assert CreateEdgeTree(source, target, name) == a + b + c;
    SourceStepsText("V", source, "as");
    SourceStepsText("addE", name, "from");
    QueryIsG(a);
    QueryMore(a, b);
    QueryMore(a + b, c);
    OneTree(b[0]);
    CallText1("V", target);
    EdgeText(Groovy(source), Groovy(target), Groovy(name));
  }

  lemma EdgeText(source: string, target: string, name: string)
    ensures "g" + ("." + "V" + "(" + source + ")." + "as" + "('s')") + ("." + "V" + "(" + target + ")")
            + ("." + "addE" + "(" + name + ")." + "from" + "('s')")
         == "g.V(" + source + ").as('s')" + ".V(" + target + ")" + ".addE(" + name + ").from('s')"
  {
    assert "g" + ("." + "V" + "(" + source + ")." + "as" + "('s')") == "g.V(" + source + ").as('s')";
    assert "." + "V" + "(" + target + ")" == ".V(" + target + ")";
    assert "." + "addE" + "(" + name + ")." + "from" + "('s')" == ".addE(" + name + ").from('s')";
    var front := "g.V(" + source + ").as('s')" + ".V(" + target + ")";
    assert front + (".addE(" + name + ").from('s')") == front + ".addE(" + name + ").from('s')";
  }

  lemma SourceStepsText(name: string, v: Value, mark: string)
    ensures TreesText([Call1(name, v), Call1(mark, Text("s"))])
         == "." + name + "(" + Groovy(v) + ")." + mark + "('s')"
  {
    hide StepText, Groovy, TreesText, ArgText;
    TwoTrees(Call1(name, v), Call1(mark, Text("s")));
    CallText1(name, v);
    CallText1(mark, Text("s"));
    SourceText();
    assert "." + name + "(" + Groovy(v) + ")" + ("." + mark + "(" + "'s'" + ")")
        == "." + name + "(" + Groovy(v) + ")." + mark + "('s')";
  }

  lemma CallText1(name: string, v: Value)
    ensures StepText(Call1(name, v)) == "." + name + "(" + Groovy(v) + ")"
  {
    hide StepText, Groovy, ArgText;
    Text1(name, Given(v));
    GivenText(v);
  }

  lemma SourceText()
    ensures Groovy(Text("s")) == "'s'"
  {
    assert "s"[1..] == "";
    assert EscapeChar('s') == "s";
    assert Escape("s") == "s" + Escape("");
  }

  method CreateEdgeQuery(source: Value, target: Value, name: Value, properties: Properties) returns (q: string)
    ensures q == QueryText(WriteTree(CreateEdge(source, target, name, properties)))
  {
    q := "g.V(" + Groovy(source) + ").as('s')" + ".V(" + Groovy(target) + ")"
         + ".addE(" + Groovy(name) + ").from('s')";
    CreateEdgeText(source, target, name);
    q := PropertySteps(q, properties, CreateEdgeTree(source, target, name));
  }

  lemma NotBothText()
    ensures StepText(Step("not", [Anonymous("bothE", [], [])])) == ".not(bothE())"
  {
    hide StepText, TreesText;
    Text1("not", Anonymous("bothE", [], []));
    AnonymousText("bothE", []);
    NoTrees();
    assert "bothE" + "()" + "" == "bothE()";
    assert "." + "not" + "(" + "bothE()" + ")" == ".not(bothE())";
  }

  lemma NoTrees()
    ensures TreesText([]) == ""
  {
  }

  lemma DropText()
    ensures TreesText([Call0("drop")]) == ".drop()"
  {
    hide StepText, TreesText;
    OneTree(Call0("drop"));
    Text0("drop");
    assert "." + "drop" + "()" == ".drop()";
  }

  lemma DeleteTargetText(name: string, target: Value)
    ensures QueryText([Call1(name, target)]) == "g." + name + "(" + Groovy(target) + ")"
  {
    hide QueryText, StepText, Groovy, TreesText;
    QueryIsG([Call1(name, target)]);
    OneTree(Call1(name, target));
    CallText1(name, target);
    assert "g" + ("." + name + "(" + Groovy(target) + ")") == "g." + name + "(" + Groovy(target) + ")";
  }

  method DeleteVertexQuery(target: Value, cascade: bool) returns (q: string)
    ensures q == QueryText(WriteTree(DeleteVertex(target, cascade)))
  {
    hide QueryText, StepText, Groovy, TreesText;
    ghost var steps := [Call1("V", target)];
    q := "g.V(" + Groovy(target) + ")";
    DeleteTargetText("V", target);
    assert "g." + "V" + "(" == "g.V(";
    if !cascade {
      ghost var guard := Step("not", [Anonymous("bothE", [], [])]);
      QueryMore(steps, [guard]);
      OneTree(guard);
      NotBothText();
      q := q + ".not(bothE())";
      steps := steps + [guard];
    } else {
      assert steps + [] == steps;
    }
    QueryMore(steps, [Call0("drop")]);
    DropText();
    q := q + ".drop()";
  }

  method DeleteEdgeQuery(target: Value) returns (q: string)
    ensures q == QueryText(WriteTree(DeleteEdge(target)))
  {
    hide QueryText, StepText, Groovy, TreesText;
    DeleteTargetText("E", target);
    QueryMore([Call1("E", target)], [Call0("drop")]);
    DropText();
    assert [Call1("E", target)] + [Call0("drop")] == [Call1("E", target), Call0("drop")];
    assert "g." + "E" + "(" == "g.E(";
    q := "g.E(" + Groovy(target) + ")" + ".drop()";
  }

  lemma IsSpelled(name: string, args: seq<Arg>)
    requires name in {"V", "E", "addV", "addE", "property", "as", "from", "not", "drop"}
    requires forall i | 0 <= i < |args| :: SpelledArg(args[i])
    ensures SpelledStep(Step(name, args))
  {
    assert IsIdentifierText(name);
  }

  lemma IsSpelled1(name: string, v: Value)
    requires name in {"V", "E", "addV", "addE", "as", "from"}
    ensures SpelledStep(Call1(name, v))
  {
    IsSpelled(name, [Given(v)]);
  }

  lemma WriteNames()
    ensures IsWrite(Lower("addV")) && IsWrite(Lower("addE")) && IsWrite(Lower("drop"))
  {
    assert Lower("addV") == "addv" && Lower("addE") == "adde" && Lower("drop") == "drop";
  }

  lemma WriteTreeWrites(op: WriteOperation) returns (k: nat)
    ensures var steps := WriteTree(op); k < |steps| && IsWrite(Lower(steps[k].name))
  {
    WriteNames();
    hide Lower, IsWrite;
    k := match op
         case CreateVertex(_, _, _) => 0
         case CreateEdge(_, _, _, _) => 3
         case DeleteVertex(_, cascade) => if cascade then 1 else 2
         case DeleteEdge(_) => 1;
  }

  lemma SpelledAppend(a: seq<Step>, b: seq<Step>)
    requires SpelledSteps(a) && SpelledSteps(b)
    ensures SpelledSteps(a + b)
  {
    hide SpelledStep;
  }

  lemma PropertyTreesAreSpelled(m: Properties)
    ensures SpelledSteps(PropertyTrees(m))
  {
    forall i | 0 <= i < |m| ensures SpelledStep(PropertyTrees(m)[i]) {
      IsSpelled("property", [Given(Text(m[i].0)), Given(m[i].1)]);
    }
  }

  lemma WriteTreeIsSpelled(op: WriteOperation)
    ensures SpelledSteps(WriteTree(op))
  {
    hide SpelledStep, PropertyTrees;
    IsSpelled("drop", []);
    match op
    case CreateVertex(name, id, properties) =>
      IsSpelled1("addV", name);
      if HasId(id) {
        assert IsIdentifierText("T") && IsIdentifierText("id");
        IsSpelled("property", [Member("T", "id"), Given(id.value)]);
      }
      PropertyTreesAreSpelled(properties);
      SpelledAppend(CreateVertexTree(name, id), PropertyTrees(properties));
    case CreateEdge(source, target, name, properties) =>
      IsSpelled1("V", source);
      IsSpelled1("as", Text("s"));
      IsSpelled1("V", target);
      IsSpelled1("addE", name);
      IsSpelled1("from", Text("s"));
      PropertyTreesAreSpelled(properties);
      SpelledAppend(CreateEdgeTree(source, target, name), PropertyTrees(properties));
    case DeleteVertex(target, _) =>
      IsSpelled1("V", target);
      assert IsIdentifierText("bothE");
      IsSpelled("not", [Anonymous("bothE", [], [])]);
    case DeleteEdge(target) => IsSpelled1("E", target);
  }

  /** `_write_query`: whatever the values, the classifier calls the query unsafe. */
  method WriteQuery(op: WriteOperation) returns (q: string)
    ensures q == QueryText(WriteTree(op)) && Classify(q) == Unsafe
  {
    hide Classify, QueryText, WriteTree;
    match op {
      case CreateVertex(name, id, properties) => q := CreateVertexQuery(name, id, properties);
      case CreateEdge(source, target, name, properties) => q := CreateEdgeQuery(source, target, name, properties);
      case DeleteVertex(target, cascade) => q := DeleteVertexQuery(target, cascade);
      case DeleteEdge(target) => q := DeleteEdgeQuery(target);
    }
    WriteTreeIsSpelled(op);
    var k := WriteTreeWrites(op);
    WriteQueryIsUnsafe(WriteTree(op), k);
  }
}
