/** The cost check of gremlin_policy.py looks at the normalized query only, and still sees its steps. */
module GremlinCosts {
  import opened Wrappers
  import opened GremlinLexer
  import opened GremlinAnalysis
  import opened GremlinMasking
  import opened GremlinPrinter

  /** `_extract_method_names`. */
  function MethodNames(q: string): seq<string> {
    var lexed := Lex(q);
    Analyze(Words(lexed.tokens), lexed.valid, lexed.normalized).methods
  }

  // ---- The depth of times(n) -----------------------------------------------------------------

  const TIMES: string := "times("

  /** `int` of ASCII digits. */
  function Number(digits: string): nat
    requires AllDigits(digits)
  {
    if digits == "" then 0
    else 10 * Number(digits[..|digits| - 1]) + (digits[|digits| - 1] as int - '0' as int)
  }

  /** The pattern `times\(\s*(\d+)\s*\)` matches at k, with its number at a to b and its parenthesis at c. */
  predicate Matches(q: string, k: nat, a: nat, b: nat, c: nat) {
    && k + |TIMES| <= a < b <= c < |q| && q[k..k + |TIMES|] == TIMES
    && (forall i | k + |TIMES| <= i < a :: IsSpace(q[i]))
    && AllDigits(q[a..b])
    && (forall i | b <= i < c :: IsSpace(q[i])) && q[c] == ')'
  }

  function SpacesEnd(q: string, i: nat): (end: nat)
    requires i <= |q|
    ensures i <= end <= |q| && (forall k | i <= k < end :: IsSpace(q[k])) && (end < |q| ==> !IsSpace(q[end]))
    decreases |q| - i
  {
    if i < |q| && IsSpace(q[i]) then SpacesEnd(q, i + 1) else i
  }

  function DigitsEnd(q: string, i: nat): (end: nat)
    requires i <= |q|
    ensures i <= end <= |q| && AllDigits(q[i..end]) && (end < |q| ==> !IsDigit(q[end]))
    decreases |q| - i
  {
    if i < |q| && IsDigit(q[i]) then
      var end := DigitsEnd(q, i + 1);
      assert q[i..end] == [q[i]] + q[i + 1..end];
      end
    else i
  }

  /** The number of a match at k. */
  function DepthAt(q: string, k: nat): Option<nat>
    requires k <= |q|
  {
    if k + |TIMES| > |q| || q[k..k + |TIMES|] != TIMES then None
    else
      var a := SpacesEnd(q, k + |TIMES|);
      var b := DigitsEnd(q, a);
      var c := SpacesEnd(q, b);
      if a < b && c < |q| && q[c] == ')' then Some(Number(q[a..b])) else None
  }

  lemma SpacesEndAt(q: string, i: nat, end: nat)
    requires i <= end <= |q| && (forall k | i <= k < end :: IsSpace(q[k])) && (end < |q| ==> !IsSpace(q[end]))
    ensures SpacesEnd(q, i) == end
  {
  }

  lemma {:induction false} DigitsEndAt(q: string, i: nat, end: nat)
    requires i <= end <= |q| && AllDigits(q[i..end]) && (end < |q| ==> !IsDigit(q[end]))
    ensures DigitsEnd(q, i) == end
    decreases end - i
  {
    if i < end {
      assert q[i] == q[i..end][0] && q[i..end][1..] == q[i + 1..end];
      DigitsEndAt(q, i + 1, end);
    }
  }

  /** A match can be read in one way only, so looking as far as possible finds it. */
  lemma DepthIsOfTheMatch(q: string, k: nat, a: nat, b: nat, c: nat)
    requires Matches(q, k, a, b, c)
    ensures DepthAt(q, k) == Some(Number(q[a..b]))
  {
    assert IsDigit(q[a..b][0]);
    assert !IsDigit(q[b]);
    hide SpacesEnd, DigitsEnd, Number;
    SpacesEndAt(q, k + |TIMES|, a);
    DigitsEndAt(q, a, b);
    SpacesEndAt(q, b, c);
  }

  lemma DepthMeansMatch(q: string, k: nat)
    requires k <= |q| && DepthAt(q, k).Some?
    ensures exists a, b, c :: Matches(q, k, a, b, c)
  {
    var a := SpacesEnd(q, k + |TIMES|);
    var b := DigitsEnd(q, a);
    assert Matches(q, k, a, b, SpacesEnd(q, b));
  }

  /** The number of the leftmost match from i on. */
  function FirstDepth(q: string, i: nat): (depth: Option<nat>)
    requires i <= |q|
    decreases |q| - i
  {
    if DepthAt(q, i).Some? || i == |q| then DepthAt(q, i) else FirstDepth(q, i + 1)
  }

  ghost predicate MatchesAt(q: string, k: nat) {
    exists a, b, c :: Matches(q, k, a, b, c)
  }

  /** The search finds what the pattern says: nothing if it matches nowhere, else the leftmost number. */
  lemma {:induction false} FirstDepthIsLeftmost(q: string, i: nat)
    requires i <= |q|
    ensures FirstDepth(q, i).None? ==> forall k | i <= k <= |q| :: !MatchesAt(q, k)
    ensures FirstDepth(q, i).Some? ==>
              exists k :: i <= k <= |q| && MatchesAt(q, k) && DepthAt(q, k) == FirstDepth(q, i)
                          && forall j | i <= j < k :: !MatchesAt(q, j)
    decreases |q| - i
  {
    hide DepthAt, Matches;
    DepthExactly(q, i);
    if DepthAt(q, i).None? && i < |q| { FirstDepthIsLeftmost(q, i + 1); }
  }

  lemma DepthExactly(q: string, k: nat)
    requires k <= |q|
    ensures DepthAt(q, k).Some? <==> MatchesAt(q, k)
  {
    hide DepthAt, Matches;
    if a, b, c :| Matches(q, k, a, b, c) { DepthIsOfTheMatch(q, k, a, b, c); }
    if DepthAt(q, k).Some? { DepthMeansMatch(q, k); }
  }

  lemma {:induction false} NumberOfDigits(n: nat)
    ensures Number(Digits(n)) == n
  {
    if n < 10 {
      assert Digits(n)[..0] == "";
    } else {
      NumberOfDigits(n / 10);
      assert Digits(n)[..|Digits(n)| - 1] == Digits(n / 10);
    }
  }

  /** A printed depth is read back. */
  lemma PrintedDepthIsRead(n: nat, rest: string)
    ensures DepthAt(TIMES + Digits(n) + ")" + rest, 0) == Some(n)
  {
    hide DepthAt, Digits;
    var d := Digits(n);
    var q := TIMES + d + ")" + rest;
    assert q[..|TIMES|] == TIMES && q[|TIMES|..|TIMES| + |d|] == d;
    DepthIsOfTheMatch(q, 0, |TIMES|, |TIMES| + |d|, |TIMES| + |d|);
    NumberOfDigits(n);
  }

  // ---- Warnings --------------------------------------------------------------------------------

  datatype Warning = Unbounded | RepeatWithoutTimes | TooDeep(depth: nat, most: nat) | HeavyWithoutLimit

  predicate Mentions(methods: seq<string>, names: set<string>) {
    exists m :: m in methods && m in names
  }

  function RepeatWarnings(methods: seq<string>, normalized: string, most: nat): seq<Warning> {
    if "repeat" !in methods then []
    else if "times" !in methods then [RepeatWithoutTimes]
    else
      var depth := FirstDepth(normalized, 0);
      if depth.Some? && depth.value > most then [TooDeep(depth.value, most)] else []
  }

  function Warnings(methods: seq<string>, normalized: string, most: nat): seq<Warning> {
    (if Mentions(methods, {"limit", "range", "count"}) then [] else [Unbounded])
    + RepeatWarnings(methods, normalized, most)
    + (if Mentions(methods, {"path", "group", "profile"}) && !Mentions(methods, {"limit", "range"})
       then [HeavyWithoutLimit] else [])
  }

  /** `gremlin_cost_warnings`; `most` is the recommended depth. */
  method GremlinCostWarnings(q: string, most: nat) returns (warnings: seq<Warning>)
    ensures warnings == Warnings(MethodNames(Lex(q).normalized), Lex(q).normalized, most)
  {
    hide FirstDepth, Mentions, Analyze, Lex;
    var stripped := LexGremlinQuery(q);
    var lexed := LexGremlinQuery(stripped.normalized);
    var a := AnalyzeTokens(lexed);
    warnings := [];
    if !Mentions(a.methods, {"limit", "range", "count"}) { warnings := warnings + [Unbounded]; }
    if "repeat" in a.methods {
      if "times" !in a.methods {
        warnings := warnings + [RepeatWithoutTimes];
      } else {
        var depth := FirstDepth(stripped.normalized, 0);
        if depth.Some? && depth.value > most { warnings := warnings + [TooDeep(depth.value, most)]; }
      }
    }
    if Mentions(a.methods, {"path", "group", "profile"}) && !Mentions(a.methods, {"limit", "range"}) {
      warnings := warnings + [HeavyWithoutLimit];
    }
  }

  /** The same words but for the contents of literals. */
  predicate SameCode(a: seq<Word>, b: seq<Word>) {
    && |a| == |b|
    && forall i | 0 <= i < |a| ::
         || a[i] == b[i]
         || (a[i].kind == b[i].kind == StringLiteral
             && a[i].text !in {".", "("} && b[i].text !in {".", "("})
  }

  lemma {:induction false} SameCodeSameMethods(a: seq<Word>, b: seq<Word>, i: nat, st: State, st': State)
    requires SameCode(a, b) && i <= |a| && st.methods == st'.methods
    ensures StateFrom(a, i, st).methods == StateFrom(b, i, st').methods
    decreases |a| - i
  {
    if i < |a| {
      hide HasMarker;
      var previous, next := PreviousWord(a, i), NextWord(a, i);
      var previous', next' := PreviousWord(b, i), NextWord(b, i);
      assert previous.Some? == previous'.Some?;
      assert previous.Some? ==> (previous.value.text == "." <==> previous'.value.text == ".");
      assert next.Some? == next'.Some? && (next.Some? ==> (next.value.text == "(" <==> next'.value.text == "("));
      StepMethods(a[i], b[i], st, st', previous, previous', next, next');
      SameCodeSameMethods(a, b, i + 1, StateAfter(st, previous, a[i], next), StateAfter(st', previous', b[i], next'));
    }
  }

  lemma StepMethods(
    w: Word, w': Word, st: State, st': State,
    previous: Option<Word>, previous': Option<Word>, next: Option<Word>, next': Option<Word>)
    requires st.methods == st'.methods && (w == w' || w.kind == w'.kind == StringLiteral)
    requires previous.Some? == previous'.Some? && next.Some? == next'.Some?
    requires previous.Some? ==> (previous.value.text == "." <==> previous'.value.text == ".")
    requires next.Some? ==> (next.value.text == "(" <==> next'.value.text == "(")
    ensures StateAfter(st, previous, w, next).methods == StateAfter(st', previous', w', next').methods
  {
    hide HasMarker, IsWrite;
  }

  lemma {:induction false} LiteralsAreQuoted(q: string, i: nat)
    requires i <= |q|
    ensures forall t | t in TokensFrom(q, i) && t.kind == StringLiteral :: t.value != "" && IsQuote(t.value[0])
    decreases |q| - i
  {
    if i < |q| && !PieceAt(q, i).Broken? {
      LiteralsAreQuoted(q, PieceAt(q, i).end);
    }
  }

  lemma VeiledIsSameCode(tokens: seq<Token>)
    requires forall t | t in tokens && t.kind == StringLiteral :: t.value != "" && IsQuote(t.value[0])
    ensures SameCode(Words(Veiled(tokens)), Words(tokens))
  {
    hide MaskedLiteral;
    forall i | 0 <= i < |tokens| && tokens[i].kind == StringLiteral
      ensures Veil(tokens[i]).kind == StringLiteral
               && Veil(tokens[i]).value !in {".", "("} && tokens[i].value !in {".", "("}
    {
      assert tokens[i] in tokens;
      VeilStartsWithQuote(tokens[i]);
    }
  }

  lemma VeilStartsWithQuote(t: Token)
    requires t.kind == StringLiteral && t.value != "" && IsQuote(t.value[0])
    ensures Veil(t).kind == StringLiteral && Veil(t).value != "" && IsQuote(Veil(t).value[0])
  {
  }

  /** Blanking out the literals hides no step from the cost check and invents none, unless a
      one-line literal continues a line. */
  lemma CostCheckSeesTheRealSteps(q: string)
    requires NoneContinues(Lex(q).tokens)
    ensures MethodNames(Lex(q).normalized) == MethodNames(q)
  {
    MaskingIsStable(q);
    LiteralsAreQuoted(q, 0);
    VeiledIsSameCode(Lex(q).tokens);
    hide StateFrom, Veiled, InvalidFrom, SameCode, NoneContinues;
    var lexed, again := Lex(q), Lex(Lex(q).normalized);
    var ws, ws' := Words(lexed.tokens), Words(again.tokens);
    SameCodeSameMethods(
      ws', ws, 0,
      State([], false, !again.valid || ws' == [] || InvalidFrom(ws', 1, []), []),
      State([], false, !lexed.valid || ws == [] || InvalidFrom(ws, 1, []), []));
  }
}
