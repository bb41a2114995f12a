/** Traversals of read steps are clean: the classifier can explain every one of their tokens. */
module GremlinReads {
  import opened Wrappers
  import opened GremlinLexer
  import opened GremlinAnalysis
  import opened GremlinPrinter
  import opened GremlinChunks
  import opened GremlinSyntax
  import opened GremlinGrammar

  /** No number that JSON writes with an exponent, and no NaN or infinity. */
  predicate PlainValue(v: Value) {
    match v
    case Real(x) => x.Finite? && x.exponent.None?
    case Items(items) => forall i | 0 <= i < |items| :: PlainValue(items[i])
    case Entries(entries) => forall i | 0 <= i < |entries| :: PlainValue(entries[i].1)
    case _ => true
  }

  predicate PlainArg(a: Arg) {
    match a
    case Given(v) => PlainValue(v)
    case Anonymous(_, args, rest) =>
      (forall i | 0 <= i < |args| :: PlainArg(args[i])) && (forall i | 0 <= i < |rest| :: PlainStep(rest[i]))
    case Member(_, _) => true
  }

  predicate PlainStep(s: Step) {
    forall i | 0 <= i < |s.args| :: PlainArg(s.args[i])
  }

  predicate PlainSteps(steps: seq<Step>) {
    forall i | 0 <= i < |steps| :: PlainStep(steps[i])
  }

  predicate IsStepName(name: string) {
    IsIdentifierText(name) && Lower(name) !in LITERALS
  }

  /** Read steps only, at every depth. */
  predicate ReadArg(a: Arg) {
    match a
    case Given(_) => true
    case Anonymous(name, args, rest) =>
      && IsStepName(name) && Lower(name) in ANONYMOUS_READ_METHODS
      && (forall i | 0 <= i < |args| :: ReadArg(args[i])) && (forall i | 0 <= i < |rest| :: ReadStep(rest[i]))
    case Member(_, _) => false
  }

  predicate ReadStep(s: Step) {
    IsStepName(s.name) && IsReadStep(Lower(s.name)) && forall i | 0 <= i < |s.args| :: ReadArg(s.args[i])
  }

  function MarkWord(c: char): Word { Word(Punctuation, [c]) }

  predicate Starter(w: Word) {
    w.kind == Punctuation && w.text in {"(", "[", ",", ":"}
  }

  predicate Ender(w: Word) {
    w.kind == Punctuation && w.text in {")", "]", ","}
  }

  /** A word that may start, and one that may end, what stands between separators. */
  predicate MayBegin(w: Word) {
    w.text !in {",", ":", ")", "]", "}", ".", "{"}
  }

  predicate MayEnd(w: Word) {
    w.text !in {"(", "[", "{", ",", ":"}
  }

  /** Clean wherever an argument or list item may stand, inside brackets of which `top` is the inner one. */
  ghost predicate Operand(ws: seq<Word>, top: string) {
    && ws != [] && MayBegin(ws[0]) && MayEnd(ws[|ws| - 1])
    && forall previous, next, stack ::
         Starter(previous) && Ender(next) && stack != [] && stack[|stack| - 1] == top ==>
           Clean(previous, ws, Some(next), stack) && PushAll(stack, ws) == stack
  }

  lemma OperandAt(ws: seq<Word>, top: string, previous: Word, next: Word, stack: seq<string>)
    requires Operand(ws, top) && Starter(previous) && Ender(next) && stack != [] && stack[|stack| - 1] == top
    ensures Clean(previous, ws, Some(next), stack) && PushAll(stack, ws) == stack
  {
    hide Clean, PushAll, Starter, Ender, MayBegin, MayEnd;
  }

  lemma OneClean(previous: Word, w: Word, next: Option<Word>, stack: seq<string>)
    requires Fine(previous, w, next, stack)
    ensures Clean(previous, [w], next, stack) && PushAll(stack, [w]) == Push(stack, w)
  {
    hide Fine, Push;
    CleanFirst(previous, w, [], next, stack);
    CleanNothing(w, next, Push(stack, w));
    assert [w] + [] == [w];
  }

  // ---- Single words --------------------------------------------------------------------------

  /** A literal value of one token. */
  predicate Atom(w: Word) {
    && w.text != "" && w.text[0] !in "(),[]:.-{}"
    && (w.kind == Number || w.kind == StringLiteral || (w.kind == Identifier && Lower(w.text) in LITERALS))
  }

  lemma AtomIsFine(previous: Word, w: Word, next: Word, stack: seq<string>)
    requires Atom(w) && previous.kind == Punctuation && previous.text in {"(", "[", ",", ":", "-"}
    requires Ender(next) || next == MarkWord(':')
    ensures Fine(previous, w, Some(next), stack) && Push(stack, w) == stack
  {
  }

  lemma AtomIsOperand(w: Word, top: string)
    requires Atom(w)
    ensures Operand([w], top)
  {
    hide Clean, PushAll, Fine, Push;
    forall previous, next, stack | Starter(previous) && Ender(next) && stack != [] && stack[|stack| - 1] == top
      ensures Clean(previous, [w], Some(next), stack) && PushAll(stack, [w]) == stack
    {
      AtomIsFine(previous, w, next, stack);
      OneClean(previous, w, Some(next), stack);
    }
    AtomEdges(w);
  }

  lemma AtomEdges(w: Word)
    requires Atom(w)
    ensures MayBegin(w) && MayEnd(w)
  {
  }

  lemma MinusIsFine(previous: Word, w: Word, stack: seq<string>)
    requires Starter(previous) && w.kind == Number
    ensures Fine(previous, MarkWord('-'), Some(w), stack) && Push(stack, MarkWord('-')) == stack
  {
  }

  lemma NegativeIsOperand(w: Word, top: string)
    requires Atom(w) && w.kind == Number
    ensures Operand([MarkWord('-'), w], top)
  {
    hide Clean, PushAll, Fine, Push;
    forall previous, next, stack | Starter(previous) && Ender(next) && stack != [] && stack[|stack| - 1] == top
      ensures Clean(previous, [MarkWord('-'), w], Some(next), stack) && PushAll(stack, [MarkWord('-'), w]) == stack
    {
      MinusIsFine(previous, w, stack);
      AtomIsFine(MarkWord('-'), w, next, stack);
      OneClean(MarkWord('-'), w, Some(next), stack);
      CleanFirst(previous, MarkWord('-'), [w], Some(next), stack);
      assert [MarkWord('-')] + [w] == [MarkWord('-'), w];
    }
    AtomEdges(w);
    assert MayBegin(MarkWord('-'));
  }

  // ---- Separators and brackets ------------------------------------------------------------------

  function JoinWords(parts: seq<seq<Word>>): seq<Word> {
    if parts == [] then []
    else if |parts| == 1 then parts[0]
    else parts[0] + ([MarkWord(',')] + JoinWords(parts[1..]))
  }

  lemma CommaIsFine(previous: Word, next: Word, stack: seq<string>)
    requires MayEnd(previous) && MayBegin(next) && stack != []
    ensures Fine(previous, MarkWord(','), Some(next), stack) && Push(stack, MarkWord(',')) == stack
  {
  }

  lemma JoinTwo(a: seq<Word>, b: seq<Word>, top: string)
    requires Operand(a, top) && Operand(b, top)
    ensures Operand(a + ([MarkWord(',')] + b), top)
  {
    hide Clean, PushAll, Fine, Push, MayBegin, MayEnd;
    var comma := MarkWord(',');
    forall previous, next, stack | Starter(previous) && Ender(next) && stack != [] && stack[|stack| - 1] == top
      ensures Clean(previous, a + ([comma] + b), Some(next), stack) && PushAll(stack, a + ([comma] + b)) == stack
    {
      OperandAt(a, top, previous, comma, stack);
      OperandAt(b, top, comma, next, stack);
      CommaIsFine(a[|a| - 1], b[0], stack);
      CleanFirst(a[|a| - 1], comma, b, Some(next), stack);
      CleanAppend(previous, a, [comma] + b, Some(next), stack);
    }
  }

  lemma {:induction false} JoinIsOperand(parts: seq<seq<Word>>, top: string)
    requires parts != [] && forall i | 0 <= i < |parts| :: Operand(parts[i], top)
    ensures Operand(JoinWords(parts), top)
    decreases |parts|
  {
    hide Operand;
    if |parts| > 1 {
      JoinIsOperand(parts[1..], top);
      JoinTwo(parts[0], JoinWords(parts[1..]), top);
    }
  }

  predicate Pair(open: Word, close: Word) {
    (open == MarkWord('(') && close == MarkWord(')')) || (open == MarkWord('[') && close == MarkWord(']'))
  }

  lemma CloserIsFine(previous: Word, open: Word, close: Word, next: Option<Word>, stack: seq<string>)
    requires Pair(open, close)
    ensures Fine(previous, close, next, stack + [open.text]) && Push(stack + [open.text], close) == stack
  {
  }

  /** What an opening bracket encloses, with the closing one. */
  lemma InsideIsClean(open: Word, ws: seq<Word>, close: Word, next: Option<Word>, stack: seq<string>)
    requires Pair(open, close) && (ws == [] || Operand(ws, open.text))
    ensures Clean(open, ws + [close], next, stack + [open.text])
    ensures PushAll(stack + [open.text], ws + [close]) == stack
  {
    hide Clean, PushAll, Fine, Push;
    var inner := stack + [open.text];
    if ws == [] { CleanNothing(open, Some(close), inner); } else { OperandAt(ws, open.text, open, close, inner); }
    CloserIsFine(LastOr(ws, open), open, close, next, stack);
    OneClean(LastOr(ws, open), close, next, inner);
    CleanAppend(open, ws, [close], next, inner);
  }

  lemma OpenerIsFine(previous: Word, open: Word, next: Option<Word>, stack: seq<string>)
    requires open == MarkWord('(') || open == MarkWord('[')
    requires Starter(previous)
             || (previous.kind == Identifier && Lower(previous.text) !in LITERALS && !IsCloser(previous.text))
    ensures Fine(previous, open, next, stack) && Push(stack, open) == stack + [open.text]
  {
  }

  lemma ListIsOperand(ws: seq<Word>, top: string)
    requires ws == [] || Operand(ws, "[")
    ensures Operand([MarkWord('[')] + (ws + [MarkWord(']')]), top)
  {
    hide Clean, PushAll, Fine, Push, Operand;
    var open, close := MarkWord('['), MarkWord(']');
    var all := [open] + (ws + [close]);
    forall previous, next, stack | Starter(previous) && Ender(next) && stack != [] && stack[|stack| - 1] == top
      ensures Clean(previous, all, Some(next), stack) && PushAll(stack, all) == stack
    {
      OpenerIsFine(previous, open, HeadOr(ws + [close], Some(next)), stack);
      InsideIsClean(open, ws, close, Some(next), stack);
      CleanFirst(previous, open, ws + [close], Some(next), stack);
    }
    IsOperand(all, top);
  }

  lemma IsOperand(ws: seq<Word>, top: string)
    requires ws != [] && MayBegin(ws[0]) && MayEnd(ws[|ws| - 1])
    requires forall previous, next, stack ::
               Starter(previous) && Ender(next) && stack != [] && stack[|stack| - 1] == top ==>
                 Clean(previous, ws, Some(next), stack) && PushAll(stack, ws) == stack
    ensures Operand(ws, top)
  {
    hide Clean, PushAll, Starter, Ender, MayBegin, MayEnd;
  }

  lemma ColonIsFine(previous: Word, next: Word, stack: seq<string>)
    requires Atom(previous) && MayBegin(next) && stack != [] && stack[|stack| - 1] == "["
    ensures Fine(previous, MarkWord(':'), Some(next), stack) && Push(stack, MarkWord(':')) == stack
  {
  }

  lemma EntryIsOperand(key: Word, value: seq<Word>)
    requires Atom(key) && key.kind == StringLiteral && Operand(value, "[")
    ensures Operand([key] + ([MarkWord(':')] + value), "[")
  {
    hide Clean, PushAll, Fine, Push, MayBegin, MayEnd, Atom;
    var colon := MarkWord(':');
    var all := [key] + ([colon] + value);
    forall previous, next, stack | Starter(previous) && Ender(next) && stack != [] && stack[|stack| - 1] == "["
      ensures Clean(previous, all, Some(next), stack) && PushAll(stack, all) == stack
    {
      AtomIsFine(previous, key, colon, stack);
      ColonIsFine(key, value[0], stack);
      OperandAt(value, "[", colon, next, stack);
      CleanFirst(key, colon, value, Some(next), stack);
      CleanFirst(previous, key, [colon] + value, Some(next), stack);
    }
    AtomEdges(key);
    IsOperand(all, "[");
  }

  // ---- Steps -------------------------------------------------------------------------------------

  lemma DotIsFine(previous: Word, name: string, stack: seq<string>)
    ensures Fine(previous, MarkWord('.'), Some(Word(Identifier, name)), stack) && Push(stack, MarkWord('.')) == stack
  {
  }

  lemma NameIsFine(previous: Word, name: string, stack: seq<string>)
    requires IsStepName(name)
    requires (previous == MarkWord('.') && IsReadStep(Lower(name)))
             || (Starter(previous) && Lower(name) in ANONYMOUS_READ_METHODS)
    ensures Fine(previous, Word(Identifier, name), Some(MarkWord('(')), stack)
    ensures Push(stack, Word(Identifier, name)) == stack
  {
  }

  function CallWords(name: string, args: seq<Word>): seq<Word> {
    [Word(Identifier, name)] + ([MarkWord('(')] + (args + [MarkWord(')')]))
  }

  lemma CallIsClean(previous: Word, name: string, args: seq<Word>, next: Option<Word>, stack: seq<string>)
    requires IsStepName(name) && (args == [] || Operand(args, "("))
    requires (previous == MarkWord('.') && IsReadStep(Lower(name)))
             || (Starter(previous) && Lower(name) in ANONYMOUS_READ_METHODS)
    ensures Clean(previous, CallWords(name, args), next, stack) && PushAll(stack, CallWords(name, args)) == stack
  {
    hide Clean, PushAll, Fine, Push, Operand, IsReadStep;
    var w, open, close := Word(Identifier, name), MarkWord('('), MarkWord(')');
    NameIsFine(previous, name, stack);
    IdentifierIsNoCloser(name);
    OpenerIsFine(w, open, HeadOr(args + [close], next), stack);
    InsideIsClean(open, args, close, next, stack);
    CleanFirst(w, open, args + [close], next, stack);
    CleanFirst(previous, w, [open] + (args + [close]), next, stack);
  }

  lemma IdentifierIsNoCloser(name: string)
    requires IsIdentifierText(name)
    ensures !IsCloser(name)
  {
  }

  /** Clean after anything, with any brackets around. */
  ghost predicate Tail(ws: seq<Word>) {
    && (ws != [] ==> MayEnd(ws[|ws| - 1]))
    && forall previous, next, stack :: Clean(previous, ws, next, stack) && PushAll(stack, ws) == stack
  }

  lemma StepIsTail(name: string, args: seq<Word>)
    requires IsStepName(name) && IsReadStep(Lower(name)) && (args == [] || Operand(args, "("))
    ensures Tail([MarkWord('.')] + CallWords(name, args))
  {
    hide Clean, PushAll, Fine, Push, Operand, IsReadStep;
    var dot := MarkWord('.');
    var all := [dot] + CallWords(name, args);
    forall previous, next, stack ensures Clean(previous, all, next, stack) && PushAll(stack, all) == stack {
      DotIsFine(previous, name, stack);
      CallIsClean(dot, name, args, next, stack);
      CleanFirst(previous, dot, CallWords(name, args), next, stack);
    }
    assert all[|all| - 1] == MarkWord(')');
  }

  function ConcatWords(parts: seq<seq<Word>>): seq<Word> {
    if parts == [] then [] else parts[0] + ConcatWords(parts[1..])
  }

  lemma TailThenTail(a: seq<Word>, b: seq<Word>)
    requires Tail(a) && Tail(b)
    ensures Tail(a + b)
  {
    hide Clean, PushAll, MayEnd;
    forall previous, next, stack ensures Clean(previous, a + b, next, stack) && PushAll(stack, a + b) == stack {
      CleanAppend(previous, a, b, next, stack);
    }
  }

  lemma {:induction false} ConcatIsTail(parts: seq<seq<Word>>)
    requires forall i | 0 <= i < |parts| :: Tail(parts[i])
    ensures Tail(ConcatWords(parts))
    decreases |parts|
  {
    hide Clean, PushAll, MayEnd;
    if parts == [] {
      NothingIsTail();
    } else {
      ConcatIsTail(parts[1..]);
      TailThenTail(parts[0], ConcatWords(parts[1..]));
    }
  }

  lemma NothingIsTail()
    ensures Tail([])
  {
  }

  lemma AnonymousIsOperand(name: string, args: seq<Word>, rest: seq<Word>, top: string)
    requires IsStepName(name) && Lower(name) in ANONYMOUS_READ_METHODS
             && (args == [] || Operand(args, "(")) && Tail(rest)
    ensures Operand(CallWords(name, args) + rest, top)
  {
    hide Clean, PushAll, Fine, Push, Operand, MayEnd;
    var call := CallWords(name, args);
    forall previous, next, stack | Starter(previous) && Ender(next) && stack != [] && stack[|stack| - 1] == top
      ensures Clean(previous, call + rest, Some(next), stack) && PushAll(stack, call + rest) == stack
    {
      CallIsClean(previous, name, args, HeadOr(rest, Some(next)), stack);
      CleanAppend(previous, call, rest, Some(next), stack);
    }
    IdentifierEdges(name);
    assert call[|call| - 1] == MarkWord(')') && (call + rest)[0] == Word(Identifier, name);
    assert MayEnd(MarkWord(')')) by { CloserEdge(); }
    IsOperand(call + rest, top);
  }

  lemma CloserEdge()
    ensures MayEnd(MarkWord(')'))
  {
  }

  lemma IdentifierEdges(name: string)
    requires IsIdentifierText(name)
    ensures MayBegin(Word(Identifier, name)) && MayEnd(Word(Identifier, name))
  {
  }

  // ---- From the trees -------------------------------------------------------------------------------

  function Codes(parts: seq<seq<Chunk>>): (r: seq<seq<Word>>)
    ensures |r| == |parts| && forall i | 0 <= i < |parts| :: r[i] == CodeOf(parts[i])
  {
    seq(|parts|, i requires 0 <= i < |parts| => CodeOf(parts[i]))
  }

  lemma OneCode(c: Chunk)
    ensures CodeOf([c]) == if c.Code? then [c.word] else []
  {
    assert [c][1..] == [];
  }

  lemma {:induction false} CodeOfJoin(sep: seq<Chunk>, parts: seq<seq<Chunk>>)
    requires sep == COMMA || sep == COMMA_SPACE
    ensures CodeOf(JoinChunks(sep, parts)) == JoinWords(Codes(parts))
    decreases |parts|
  {
    SeparatorCode(sep);
    hide CodeOf;
    if parts == [] {
      NoChunks();
    } else if |parts| > 1 {
      CodeOfJoin(sep, parts[1..]);
      ChunksAppend(sep, JoinChunks(sep, parts[1..]));
      ChunksAppend(parts[0], sep + JoinChunks(sep, parts[1..]));
      assert Codes(parts)[1..] == Codes(parts[1..]);
    }
  }

  lemma SeparatorCode(sep: seq<Chunk>)
    requires sep == COMMA || sep == COMMA_SPACE
    ensures CodeOf(sep) == [MarkWord(',')]
  {
    OneCode(Mark(','));
    FirstChunk(Mark(','), [Space]);
    OneCode(Space);
    assert [Mark(',')] + [Space] == COMMA_SPACE;
  }

  lemma {:induction false} CodeOfConcat(parts: seq<seq<Chunk>>)
    ensures CodeOf(ConcatChunks(parts)) == ConcatWords(Codes(parts))
    decreases |parts|
  {
    hide CodeOf;
    if parts == [] {
      NoChunks();
    } else {
      CodeOfConcat(parts[1..]);
      ChunksAppend(parts[0], ConcatChunks(parts[1..]));
      assert Codes(parts)[1..] == Codes(parts[1..]);
    }
  }

  lemma CodeOfEnclosed(open: char, inside: seq<Chunk>, close: char)
    ensures CodeOf(Enclosed(open, inside, close)) == [MarkWord(open)] + (CodeOf(inside) + [MarkWord(close)])
  {
    hide CodeOf;
    OneCode(Mark(open));
    OneCode(Mark(close));
    ChunksAppend(inside, [Mark(close)]);
    ChunksAppend([Mark(open)], inside + [Mark(close)]);
  }

  lemma CodeOfEntry(key: string, value: seq<Chunk>)
    ensures CodeOf(EntryChunks(key, value)) == [Word(StringLiteral, Quoted(key))] + ([MarkWord(':')] + CodeOf(value))
  {
    hide CodeOf, Quoted;
    FirstChunk(Space, value);
    FirstChunk(Mark(':'), [Space] + value);
    FirstChunk(Str(key), [Mark(':')] + ([Space] + value));
    assert [Str(key)] + ([Mark(':')] + ([Space] + value)) == EntryChunks(key, value);
    assert [] + CodeOf(value) == CodeOf(value);
  }

  lemma CodeOfCall(name: string, parts: seq<seq<Chunk>>)
    ensures CodeOf(CallChunks(name, parts)) == CallWords(name, JoinWords(Codes(parts)))
  {
    hide CodeOf, JoinChunks;
    CodeOfJoin(COMMA, parts);
    CodeOfEnclosed('(', JoinChunks(COMMA, parts), ')');
    FirstChunk(Ident(name), Enclosed('(', JoinChunks(COMMA, parts), ')'));
  }

  lemma StringIsAtom(s: string)
    ensures Atom(Word(StringLiteral, Quoted(s)))
  {
    assert Quoted(s)[0] == '\'';
  }

  lemma DigitsAreAtom(s: string)
    requires s != "" && IsDigit(s[0])
    ensures Atom(Word(Number, s))
  {
  }

  lemma LiteralNamesAreAtoms()
    ensures forall s | s in {"true", "false", "null"} :: Atom(Word(Identifier, s))
  {
    forall s | s in {"true", "false", "null"} ensures Atom(Word(Identifier, s)) {
      assert Lower(s) == s;
    }
  }

  lemma NumberIsOperand(negative: bool, s: string, top: string)
    requires s != "" && IsDigit(s[0])
    ensures Operand(CodeOf(SignChunks(negative) + [Num(s)]), top)
  {
    hide Operand, Atom;
    DigitsAreAtom(s);
    OneCode(Num(s));
    if negative {
      FirstChunk(Mark('-'), [Num(s)]);
      assert [MarkWord('-')] + [Word(Number, s)] == [MarkWord('-'), Word(Number, s)];
      NegativeIsOperand(Word(Number, s), top);
    } else {
      assert SignChunks(negative) + [Num(s)] == [Num(s)];
      AtomIsOperand(Word(Number, s), top);
    }
  }

  lemma IntegerIsOperand(n: int, top: string)
    ensures Operand(CodeOf(IntegerChunks(n)), top)
  {
    hide Operand, CodeOf;
    var digits := Digits(if n < 0 then -n else n);
    NumberIsOperand(n < 0, digits, top);
    assert SignChunks(n < 0) + [Num(digits)] == IntegerChunks(n);
  }

  lemma FloatIsOperand(x: Float, top: string)
    requires x.Finite? && x.exponent.None?
    ensures Operand(CodeOf(FloatChunks(x)), top)
  {
    hide Operand, CodeOf;
    var s := x.whole + FractionText(x.fraction);
    assert s[0] == x.whole[0];
    NumberIsOperand(x.negative, s, top);
    assert [Num(s)] + ExponentChunks(None) == [Num(s)];
  }

  lemma PartsAreOperand(parts: seq<seq<Chunk>>, top: string)
    requires forall i | 0 <= i < |parts| :: Operand(CodeOf(parts[i]), top)
    ensures JoinWords(Codes(parts)) == [] || Operand(JoinWords(Codes(parts)), top)
  {
    hide Operand;
    if parts != [] { JoinIsOperand(Codes(parts), top); }
  }

  lemma ListChunksAreOperand(parts: seq<seq<Chunk>>, top: string)
    requires forall i | 0 <= i < |parts| :: Operand(CodeOf(parts[i]), "[")
    ensures Operand(CodeOf(Enclosed('[', JoinChunks(COMMA_SPACE, parts), ']')), top)
  {
    hide Operand, CodeOf;
    PartsAreOperand(parts, "[");
    CodeOfJoin(COMMA_SPACE, parts);
    CodeOfEnclosed('[', JoinChunks(COMMA_SPACE, parts), ']');
    ListIsOperand(JoinWords(Codes(parts)), top);
  }

  lemma {:induction false} ValueIsOperand(v: Value, top: string)
    requires PlainValue(v)
    ensures Operand(CodeOf(ValueChunks(v)), top)
    decreases v
  {
    hide Operand, CodeOf, JoinChunks, Enclosed, EntryChunks, Atom;
    LiteralNamesAreAtoms();
    match v
    case Text(s) =>
      OneCode(Str(s));
      StringIsAtom(s);
      AtomIsOperand(Word(StringLiteral, Quoted(s)), top);
    case Integer(n) => IntegerIsOperand(n, top);
    case Real(x) => FloatIsOperand(x, top);
    case Flag(b) =>
      OneCode(Ident(if b then "true" else "false"));
      AtomIsOperand(Word(Identifier, if b then "true" else "false"), top);
    case Null =>
      OneCode(Ident("null"));
      AtomIsOperand(Word(Identifier, "null"), top);
    case Items(items) =>
      var parts := seq(|items|, i requires 0 <= i < |items| => ValueChunks(items[i]));
      forall i | 0 <= i < |items| ensures Operand(CodeOf(parts[i]), "[") { ValueIsOperand(items[i], "["); }
      ListChunksAreOperand(parts, top);
    case Entries(entries) =>
      var parts := seq(|entries|, i requires 0 <= i < |entries| =>
                       EntryChunks(entries[i].0, ValueChunks(entries[i].1)));
      forall i | 0 <= i < |entries| ensures Operand(CodeOf(parts[i]), "[") {
        ValueIsOperand(entries[i].1, "[");
        EntryChunksAreOperand(entries[i].0, ValueChunks(entries[i].1));
      }
      ListChunksAreOperand(parts, top);
  }

  lemma EntryChunksAreOperand(key: string, value: seq<Chunk>)
    requires Operand(CodeOf(value), "[")
    ensures Operand(CodeOf(EntryChunks(key, value)), "[")
  {
    hide Operand, CodeOf, Atom;
    CodeOfEntry(key, value);
    StringIsAtom(key);
    EntryIsOperand(Word(StringLiteral, Quoted(key)), CodeOf(value));
  }

  lemma {:induction false} ArgIsOperand(a: Arg)
    requires ReadArg(a) && PlainArg(a)
    ensures Operand(CodeOf(ArgChunks(a)), "(")
    decreases a
  {
    hide Operand, CodeOf, CallChunks, ConcatChunks, Tail, IsStepName;
    match a
    case Given(v) => ValueIsOperand(v, "(");
    case Anonymous(name, args, rest) =>
      var parts := seq(|args|, i requires 0 <= i < |args| => ArgChunks(args[i]));
      forall i | 0 <= i < |args| ensures Operand(CodeOf(parts[i]), "(") { ArgIsOperand(args[i]); }
      var steps := seq(|rest|, i requires 0 <= i < |rest| => StepChunks(rest[i]));
      forall i | 0 <= i < |rest| ensures Tail(CodeOf(steps[i])) { StepIsTailChunks(rest[i]); }
      PartsAreOperand(parts, "(");
      CodeOfCall(name, parts);
      CodeOfConcat(steps);
      ConcatIsTail(Codes(steps));
      ChunksAppend(CallChunks(name, parts), ConcatChunks(steps));
      AnonymousIsOperand(name, JoinWords(Codes(parts)), ConcatWords(Codes(steps)), "(");
  }

  lemma {:induction false} StepIsTailChunks(s: Step)
    requires ReadStep(s) && PlainStep(s)
    ensures Tail(CodeOf(StepChunks(s)))
    decreases s
  {
    hide Operand, CodeOf, CallChunks, Tail, IsStepName, IsReadStep;
    var parts := seq(|s.args|, i requires 0 <= i < |s.args| => ArgChunks(s.args[i]));
    forall i | 0 <= i < |s.args| ensures Operand(CodeOf(parts[i]), "(") { ArgIsOperand(s.args[i]); }
    PartsAreOperand(parts, "(");
    CodeOfCall(s.name, parts);
    FirstChunk(Mark('.'), CallChunks(s.name, parts));
    StepIsTail(s.name, JoinWords(Codes(parts)));
  }

  predicate ReadSteps(steps: seq<Step>) {
    forall i | 0 <= i < |steps| :: ReadStep(steps[i])
  }

  /** A traversal of read steps that starts at V or E is a clean query, if its numbers are plain. */
  lemma ReadQueryIsClean(steps: seq<Step>)
    requires ReadSteps(steps) && PlainSteps(steps) && steps != [] && Lower(steps[0].name) in {"v", "e"}
    ensures CleanQuery(CodeOf(QueryChunks(steps)))
  {
    hide CodeOf, StepChunks, Tail, ReadStep, PlainStep, ConcatChunks, Clean, PushAll;
    var parts := seq(|steps|, i requires 0 <= i < |steps| => StepChunks(steps[i]));
    forall i | 0 <= i < |steps| ensures Tail(CodeOf(parts[i])) { StepIsTailChunks(steps[i]); }
    CodeOfConcat(parts);
    ConcatIsTail(Codes(parts));
    FirstChunk(Ident("g"), StepsChunks(steps));
    var rest := CodeOf(StepsChunks(steps));
    var ws := CodeOf(QueryChunks(steps));
    assert ws == [Word(Identifier, "g")] + rest && ws[1..] == rest;
    TailIsClean(rest, ws[0]);
    RootOfQuery(steps);
    assert ws[1] == rest[0] && ws[2] == rest[1] && ws[3] == rest[2];
    assert Lower("g") == "g";
  }

  lemma TailIsClean(ws: seq<Word>, previous: Word)
    requires Tail(ws)
    ensures Clean(previous, ws, None, []) && PushAll([], ws) == []
  {
  }

  lemma RootOfQuery(steps: seq<Step>)
    requires steps != []
    ensures var rest := CodeOf(StepsChunks(steps));
            && |rest| >= 3 && rest[0] == MarkWord('.')
            && rest[1] == Word(Identifier, steps[0].name) && rest[2] == MarkWord('(')
  {
    var parts := seq(|steps|, i requires 0 <= i < |steps| => StepChunks(steps[i]));
    CodeOfConcat(parts);
    CodeOfStep(steps[0]);
    hide CodeOf, StepChunks;
    assert Codes(parts)[0] == CodeOf(StepChunks(steps[0]));
  }

  /** The dot, the name and the parenthesis of a step, and the rest of it. */
  lemma CodeOfStep(s: Step)
    ensures var ws := CodeOf(StepChunks(s));
            |ws| >= 3 && ws[0] == MarkWord('.') && ws[1] == Word(Identifier, s.name) && ws[2] == MarkWord('(')
  {
    hide CodeOf;
    var parts := seq(|s.args|, i requires 0 <= i < |s.args| => ArgChunks(s.args[i]));
    CodeOfCall(s.name, parts);
    FirstChunk(Mark('.'), CallChunks(s.name, parts));
  }
}
