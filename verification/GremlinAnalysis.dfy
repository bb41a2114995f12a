/** The token analysis and the classifier of gremlin_policy.py. */
module GremlinAnalysis {
  import opened Wrappers
  import opened GremlinLexer

  /** A token without its offsets. */
  datatype Word = Word(kind: Kind, text: string)

  function Words(tokens: seq<Token>): (r: seq<Word>)
    ensures |r| == |tokens| && forall i | 0 <= i < |tokens| :: r[i] == Word(tokens[i].kind, tokens[i].value)
  {
    seq(|tokens|, i requires 0 <= i < |tokens| => Word(tokens[i].kind, tokens[i].value))
  }

  const WRITE_METHODS: set<string> :=
    {"addv", "adde", "drop", "dropv", "drope", "remove", "clear", "sideeffect", "io", "call", "program"}

  const READ_METHODS: set<string> :=
    {"v", "e", "count", "limit", "range", "has", "haslabel", "hasid", "values", "valuemap", "id", "label", "keys",
     "elementmap", "properties", "out", "in", "both", "oute", "ine", "bothe", "outv", "inv", "bothv", "otherv",
     "path", "order", "group", "groupcount", "by", "dedup", "sample", "where", "not", "and", "or", "as", "select",
     "unfold", "coalesce", "optional", "repeat", "times", "until", "emit", "simplepath", "cyclicpath", "skip",
     "tail", "tolist", "toset", "explain", "profile"}

  const ANONYMOUS_READ_METHODS: set<string> := {"outv", "inv", "bothv", "otherv"}

  const LITERALS: set<string> := {"true", "false", "null"}

  predicate IsWrite(lowered: string) {
    lowered in WRITE_METHODS || lowered == "property" || lowered == "iterate"
  }

  function LowerChar(c: char): char {
    if 'A' <= c <= 'Z' then c + ('a' - 'A') else c
  }

  /** `str.lower` on ASCII text, which identifiers are. */
  function Lower(s: string): (r: string)
    ensures |r| == |s|
  {
    seq(|s|, i requires 0 <= i < |s| => LowerChar(s[i]))
  }

  predicate Contains(s: string, a: char, b: char) {
    exists k :: 0 <= k < |s| - 1 && s[k] == a && s[k + 1] == b
  }

  /** Interpolation and closure markers. */
  predicate HasMarker(s: string) {
    Contains(s, '$', '{') || Contains(s, '#', '{') || Contains(s, '-', '>')
  }

  predicate IsOpener(s: string) {
    s == "(" || s == "[" || s == "{"
  }

  predicate IsCloser(s: string) {
    s == ")" || s == "]" || s == "}"
  }

  function Opener(closer: string): string {
    if closer == ")" then "(" else if closer == "]" then "[" else "{"
  }

  // ---- Adjacency -------------------------------------------------------------------

  predicate IsValue(w: Word) {
    w.kind == Identifier || w.kind == Number || w.kind == StringLiteral
  }

  /** The neighbours alone rule the sequence out. */
  predicate CannotFollow(previous: Word, current: Word) {
    || (IsCloser(previous.text) && current.text !in {".", ",", ")", "]", "}"})
    || ((previous.kind == Number || previous.kind == StringLiteral) && (IsValue(current) || IsOpener(current.text)))
    || (previous.kind == Identifier && IsValue(current))
    || (previous.kind == Identifier && Lower(previous.text) in LITERALS && IsOpener(current.text))
  }

  predicate BadComma(previous: Word, next: Option<Word>, stack: seq<string>) {
    || stack == [] || previous.text in {"(", "[", "{", ",", ":"}
    || next.None? || next.value.text in {",", ":", ")", "]", "}"}
  }

  datatype Finding = Continue | Stop(invalid: bool)

  function ColonFinding(previous: Word, next: Option<Word>, stack: seq<string>): Finding {
    if stack == [] || stack[|stack| - 1] != "[" then Stop(true)
    else if previous.text in {",", ":", "(", "{"} then Stop(true)
    else if next.None? then Stop(true)
    else if previous.text == "[" then Stop(next.value.text != "]")
    else if next.value.text in {",", ":", ")", "}", "]"} then Stop(true)
    else Continue
  }

  function FindingAt(previous: Word, current: Word, next: Option<Word>, stack: seq<string>): Finding {
    if CannotFollow(previous, current) then Stop(true)
    else if current.text == "," && BadComma(previous, next, stack) then Stop(true)
    else if current.text == ":" then ColonFinding(previous, next, stack)
    else if current.text == "-" && (next.None? || next.value.kind != Number) then Stop(true)
    else Continue
  }

  function Push(stack: seq<string>, w: Word): seq<string> {
    if IsOpener(w.text) then stack + [w.text]
    else if IsCloser(w.text) && stack != [] then stack[..|stack| - 1]
    else stack
  }

  function NextWord(ws: seq<Word>, i: nat): Option<Word> {
    if i + 1 < |ws| then Some(ws[i + 1]) else None
  }

  predicate InvalidFrom(ws: seq<Word>, i: nat, stack: seq<string>)
    requires 0 < i
    decreases |ws| - i
  {
    if i >= |ws| then false
    else
      var finding := FindingAt(ws[i - 1], ws[i], NextWord(ws, i), stack);
      if finding.Stop? then finding.invalid else InvalidFrom(ws, i + 1, Push(stack, ws[i]))
  }

  // ---- Methods, writes, brackets -------------------------------------------------------

  datatype Analysis = Analysis(methods: seq<string>, hasWrite: bool, uncertain: bool)

  datatype State = State(methods: seq<string>, hasWrite: bool, uncertain: bool, stack: seq<string>)

  function Doubt(st: State, doubt: bool): State {
    st.(uncertain := st.uncertain || doubt)
  }

  function Bracket(st: State, text: string): State {
    if IsOpener(text) then st.(stack := st.stack + [text])
    else if IsCloser(text) then
      if st.stack == [] then Doubt(st, true)
      else Doubt(st.(stack := st.stack[..|st.stack| - 1]), st.stack[|st.stack| - 1] != Opener(text))
    else Doubt(st, text in {";", "+", "=", "?", "!", "*", "%", "/"})
  }

  /** An identifier: a member call, a bare call, the source `g`, or a literal. */
  function Name(st: State, lowered: string, first: bool, isMember: bool, isCall: bool): State {
    if isMember then
      if isCall then st.(methods := st.methods + [lowered], hasWrite := st.hasWrite || IsWrite(lowered))
      else Doubt(st, true).(hasWrite := st.hasWrite || IsWrite(lowered))
    else if isCall then
      if lowered in ANONYMOUS_READ_METHODS then st.(methods := st.methods + [lowered])
      else if IsWrite(lowered) then st.(hasWrite := true)
      else Doubt(st, true)
    else Doubt(st, !(first && lowered == "g") && lowered !in LITERALS)
  }

  function StateAfter(st: State, previous: Option<Word>, w: Word, next: Option<Word>): State {
    match w.kind
    case Unknown => Doubt(st, true)
    case StringLiteral => Doubt(st, HasMarker(w.text))
    case Punctuation => Bracket(st, w.text)
    case Number => st
    case Identifier =>
      Name(st, Lower(w.text), previous.None?, previous.Some? && previous.value.text == ".",
           next.Some? && next.value.text == "(")
  }

  function PreviousWord(ws: seq<Word>, i: nat): Option<Word> {
    if 0 < i <= |ws| then Some(ws[i - 1]) else None
  }

  function StateFrom(ws: seq<Word>, i: nat, st: State): State
    decreases |ws| - i
  {
    if i >= |ws| then st else StateFrom(ws, i + 1, StateAfter(st, PreviousWord(ws, i), ws[i], NextWord(ws, i)))
  }

  /** Starts with exactly `g.V(` or `g.E(`. */
  predicate HasReadRoot(ws: seq<Word>) {
    && |ws| >= 4
    && ws[0].kind == Identifier && Lower(ws[0].text) == "g" && ws[1].text == "."
    && ws[2].kind == Identifier && Lower(ws[2].text) in {"v", "e"} && ws[3].text == "("
  }

  predicate BadDot(ws: seq<Word>, i: nat)
    requires i < |ws|
  {
    ws[i].text == "." && (NextWord(ws, i).None? || NextWord(ws, i).value.kind != Identifier)
  }

  predicate IsBrace(w: Word) {
    w.text == "{" || w.text == "}"
  }

  /** What remains to doubt when the loop over the tokens is over. */
  predicate Doubtful(ws: seq<Word>, normalized: string) {
    || !HasReadRoot(ws)
    || (exists i :: 0 <= i < |ws| && BadDot(ws, i))
    || HasMarker(normalized)
    || (exists i :: 0 <= i < |ws| && IsBrace(ws[i]))
  }

  function Analyze(ws: seq<Word>, valid: bool, normalized: string): Analysis {
    var st := StateFrom(ws, 0, State([], false, !valid || ws == [] || InvalidFrom(ws, 1, []), []));
    Analysis(st.methods, st.hasWrite, st.uncertain || st.stack != [] || Doubtful(ws, normalized))
  }

  datatype Classification = Safe | Unsafe | Uncertain

  function Verdict(a: Analysis): Classification {
    if a.hasWrite then Unsafe
    else if a.uncertain then Uncertain
    else if exists m :: m in a.methods && m !in READ_METHODS then Uncertain
    else Safe
  }

  predicate AllSpace(q: string) {
    forall k | 0 <= k < |q| :: IsSpace(q[k])
  }

  function Classify(q: string): Classification {
    if AllSpace(q) then Uncertain
    else
      var lexed := Lex(q);
      Verdict(Analyze(Words(lexed.tokens), lexed.valid, lexed.normalized))
  }

  // ---- The code ------------------------------------------------------------------------

  /** `_has_invalid_token_adjacency`. */
  method HasInvalidTokenAdjacency(ws: seq<Word>) returns (invalid: bool)
    ensures invalid == InvalidFrom(ws, 1, [])
  {
    var stack: seq<string> := [];
    var i := 1;
    while i < |ws|
      invariant 1 <= i && InvalidFrom(ws, i, stack) == InvalidFrom(ws, 1, [])
    {
      var finding := FindingAt(ws[i - 1], ws[i], NextWord(ws, i), stack);
      if finding.Stop? { return finding.invalid; }
      if IsOpener(ws[i].text) {
        stack := stack + [ws[i].text];
      } else if IsCloser(ws[i].text) && stack != [] {
        stack := stack[..|stack| - 1];
      }
      i := i + 1;
    }
    invalid := false;
  }

  method AnalyzeName(lowered: string, first: bool, isMember: bool, isCall: bool, st: State) returns (st': State)
    ensures st' == Name(st, lowered, first, isMember, isCall)
  {
    st' := st;
    if isMember {
      if IsWrite(lowered) { st' := st'.(hasWrite := true); }
      if !isCall { return st'.(uncertain := true); }
      return st'.(methods := st.methods + [lowered]);
    }
    if isCall {
      if lowered in ANONYMOUS_READ_METHODS {
        st' := st'.(methods := st.methods + [lowered]);
      } else if IsWrite(lowered) {
        st' := st'.(hasWrite := true);
      } else {
        st' := st'.(uncertain := true);
      }
      return;
    }
    if !(first && lowered == "g") && lowered !in LITERALS { st' := st'.(uncertain := true); }
  }

  /** `_analyze_tokens`. */
  method AnalyzeTokens(lexed: Lexed) returns (a: Analysis)
    ensures a == Analyze(Words(lexed.tokens), lexed.valid, lexed.normalized)
  {
    var ws := Words(lexed.tokens);
    var invalid := HasInvalidTokenAdjacency(ws);
    var st := State([], false, !lexed.valid || ws == [] || invalid, []);
    for i := 0 to |ws|
      invariant StateFrom(ws, i, st) == StateFrom(ws, 0, State([], false, !lexed.valid || ws == [] || invalid, []))
    {
      var w, next := ws[i], NextWord(ws, i);
      if w.kind == Unknown {
        st := st.(uncertain := true);
      } else if w.kind == StringLiteral {
        if HasMarker(w.text) { st := st.(uncertain := true); }
      } else if w.kind == Punctuation {
        st := Bracket(st, w.text);
      } else if w.kind == Identifier {
        var isMember, isCall := i > 0 && ws[i - 1].text == ".", next.Some? && next.value.text == "(";
        st := AnalyzeName(Lower(w.text), i == 0, isMember, isCall, st);
      }
    }
    a := Analysis(st.methods, st.hasWrite, st.uncertain || st.stack != [] || Doubtful(ws, lexed.normalized));
  }

  /** `classify_gremlin_read_safety`. */
  method ClassifyGremlinReadSafety(q: string) returns (r: Classification)
    ensures r == Classify(q)
  {
    if AllSpace(q) { return Uncertain; }
    var lexed := LexGremlinQuery(q);
    var a := AnalyzeTokens(lexed);
    r := Verdict(a);
  }
}
