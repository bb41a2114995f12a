/** Traversals as trees, the text that is printed for them, and the lexemes of that text. */
module GremlinSyntax {
  import opened Wrappers
  import opened GremlinLexer
  import opened GremlinAnalysis
  import opened GremlinPrinter
  import opened GremlinChunks

  datatype Step = Step(name: string, args: seq<Arg>)

  /** An argument: a printed value, an anonymous traversal, or a member such as `T.id`. */
  datatype Arg =
    | Given(value: Value)
    | Anonymous(name: string, args: seq<Arg>, rest: seq<Step>)
    | Member(owner: string, name: string)

  // ---- Text ----------------------------------------------------------------------

  function Concat(parts: seq<string>): string {
    if parts == [] then "" else parts[0] + Concat(parts[1..])
  }

  function CallText(name: string, args: seq<string>): string {
    name + ("(" + Join(",", args) + ")")
  }

  function ArgText(a: Arg): string {
    match a
    case Given(v) => Groovy(v)
    case Anonymous(name, args, rest) =>
      CallText(name, seq(|args|, i requires 0 <= i < |args| => ArgText(args[i])))
      + Concat(seq(|rest|, i requires 0 <= i < |rest| => StepText(rest[i])))
    case Member(owner, name) => owner + ("." + name)
  }

  function StepText(s: Step): string {
    "." + CallText(s.name, seq(|s.args|, i requires 0 <= i < |s.args| => ArgText(s.args[i])))
  }

  function StepTexts(steps: seq<Step>): seq<string> {
    seq(|steps|, i requires 0 <= i < |steps| => StepText(steps[i]))
  }

  function QueryText(steps: seq<Step>): string {
    "g" + Concat(StepTexts(steps))
  }

  // ---- Lexemes -----------------------------------------------------------------------

  function Mark(c: char): Chunk { Code(Word(Punctuation, [c])) }

  function Ident(s: string): Chunk { Code(Word(Identifier, s)) }

  function Num(s: string): Chunk { Code(Word(Number, s)) }

  function Str(s: string): Chunk { Code(Word(StringLiteral, Quoted(s))) }

  function JoinChunks(sep: seq<Chunk>, parts: seq<seq<Chunk>>): seq<Chunk> {
    if parts == [] then []
    else if |parts| == 1 then parts[0]
    else parts[0] + (sep + JoinChunks(sep, parts[1..]))
  }

  function ConcatChunks(parts: seq<seq<Chunk>>): seq<Chunk> {
    if parts == [] then [] else parts[0] + ConcatChunks(parts[1..])
  }

  function IntegerChunks(n: int): seq<Chunk> {
    if n < 0 then [Mark('-'), Num(Digits(-n))] else [Num(Digits(n))]
  }

  function ExponentChunks(exponent: Option<Exponent>): seq<Chunk> {
    if exponent.None? then []
    else
      [Ident("e"), if exponent.value.negative then Mark('-') else Code(Word(Unknown, "+")), Num(exponent.value.digits)]
  }

  function FloatChunks(x: Float): seq<Chunk> {
    match x
    case Finite(negative, whole, fraction, exponent) =>
      SignChunks(negative) + ([Num(whole + FractionText(fraction))] + ExponentChunks(exponent))
    case NaN => [Ident("NaN")]
    case Infinite(negative) => SignChunks(negative) + [Ident("Infinity")]
  }

  function Enclosed(open: char, inside: seq<Chunk>, close: char): seq<Chunk> {
    [Mark(open)] + (inside + [Mark(close)])
  }

  function EntryChunks(key: string, value: seq<Chunk>): seq<Chunk> {
    [Str(key), Mark(':'), Space] + value
  }

  const COMMA_SPACE: seq<Chunk> := [Mark(','), Space]
  const COMMA: seq<Chunk> := [Mark(',')]

  function ValueChunks(v: Value): seq<Chunk> {
    match v
    case Text(s) => [Str(s)]
    case Integer(n) => IntegerChunks(n)
    case Real(x) => FloatChunks(x)
    case Flag(b) => [Ident(if b then "true" else "false")]
    case Null => [Ident("null")]
    case Items(items) =>
      Enclosed('[', JoinChunks(COMMA_SPACE, seq(|items|, i requires 0 <= i < |items| => ValueChunks(items[i]))), ']')
    case Entries(entries) =>
      Enclosed('[', JoinChunks(COMMA_SPACE, seq(|entries|, i requires 0 <= i < |entries| =>
                                                 EntryChunks(entries[i].0, ValueChunks(entries[i].1)))), ']')
  }

  function CallChunks(name: string, args: seq<seq<Chunk>>): seq<Chunk> {
    [Ident(name)] + Enclosed('(', JoinChunks(COMMA, args), ')')
  }

  function ArgChunks(a: Arg): seq<Chunk> {
    match a
    case Given(v) => ValueChunks(v)
    case Anonymous(name, args, rest) =>
      CallChunks(name, seq(|args|, i requires 0 <= i < |args| => ArgChunks(args[i])))
      + ConcatChunks(seq(|rest|, i requires 0 <= i < |rest| => StepChunks(rest[i])))
    case Member(owner, name) => [Ident(owner), Mark('.'), Ident(name)]
  }

  function StepChunks(s: Step): seq<Chunk> {
    [Mark('.')] + CallChunks(s.name, seq(|s.args|, i requires 0 <= i < |s.args| => ArgChunks(s.args[i])))
  }

  function StepsChunks(steps: seq<Step>): seq<Chunk> {
    ConcatChunks(seq(|steps|, i requires 0 <= i < |steps| => StepChunks(steps[i])))
  }

  function QueryChunks(steps: seq<Step>): seq<Chunk> {
    [Ident("g")] + StepsChunks(steps)
  }

  // ---- The text is the text of the lexemes -----------------------------------------------

  lemma OneChunkText(c: Chunk)
    ensures ChunksText([c]) == ChunkText(c)
  {
    assert [c][1..] == [];
    assert ChunkText(c) + "" == ChunkText(c);
  }

  lemma {:induction false} JoinText(sep: string, chunks: seq<Chunk>, texts: seq<string>, parts: seq<seq<Chunk>>)
    requires ChunksText(chunks) == sep && |texts| == |parts|
    requires forall i | 0 <= i < |parts| :: ChunksText(parts[i]) == texts[i]
    ensures ChunksText(JoinChunks(chunks, parts)) == Join(sep, texts)
    decreases |parts|
  {
    hide ChunksText;
    if parts == [] {
      NoChunks();
    } else if |parts| > 1 {
      JoinText(sep, chunks, texts[1..], parts[1..]);
      ChunksAppend(chunks, JoinChunks(chunks, parts[1..]));
      ChunksAppend(parts[0], chunks + JoinChunks(chunks, parts[1..]));
      assert texts[0] + (sep + Join(sep, texts[1..])) == texts[0] + sep + Join(sep, texts[1..]);
    }
  }

  lemma {:induction false} ConcatText(texts: seq<string>, parts: seq<seq<Chunk>>)
    requires |texts| == |parts|
    requires forall i | 0 <= i < |parts| :: ChunksText(parts[i]) == texts[i]
    ensures ChunksText(ConcatChunks(parts)) == Concat(texts)
    decreases |parts|
  {
    hide ChunksText;
    if parts == [] {
      NoChunks();
    } else {
      ConcatText(texts[1..], parts[1..]);
      ChunksAppend(parts[0], ConcatChunks(parts[1..]));
    }
  }

  lemma EnclosedText(open: char, inside: seq<Chunk>, close: char)
    ensures ChunksText(Enclosed(open, inside, close)) == [open] + ChunksText(inside) + [close]
  {
    hide ChunksText;
    OneChunkText(Mark(open));
    OneChunkText(Mark(close));
    ChunksAppend(inside, [Mark(close)]);
    ChunksAppend([Mark(open)], inside + [Mark(close)]);
    assert [open] + (ChunksText(inside) + [close]) == [open] + ChunksText(inside) + [close];
  }

  lemma TwoChunksText(a: Chunk, b: Chunk)
    ensures ChunksText([a, b]) == ChunkText(a) + ChunkText(b)
  {
    hide ChunksText;
    OneChunkText(b);
    FirstChunk(a, [b]);
    assert [a] + [b] == [a, b];
  }

  lemma ThreeChunksText(a: Chunk, b: Chunk, c: Chunk)
    ensures ChunksText([a, b, c]) == ChunkText(a) + (ChunkText(b) + ChunkText(c))
  {
    hide ChunksText;
    TwoChunksText(b, c);
    FirstChunk(a, [b, c]);
    assert [a] + [b, c] == [a, b, c];
  }

  lemma ExponentIsText(exponent: Option<Exponent>)
    ensures ChunksText(ExponentChunks(exponent)) == ExponentText(exponent)
  {
    hide ChunksText;
    if exponent.Some? {
      var sign := if exponent.value.negative then Mark('-') else Code(Word(Unknown, "+"));
      ThreeChunksText(Ident("e"), sign, Num(exponent.value.digits));
    } else {
      NoChunks();
    }
  }

  function SignChunks(negative: bool): seq<Chunk> {
    if negative then [Mark('-')] else []
  }

  lemma SignIsText(negative: bool, chunks: seq<Chunk>)
    ensures ChunksText(SignChunks(negative) + chunks) == (if negative then "-" else "") + ChunksText(chunks)
  {
    hide ChunksText;
    NoChunks();
    OneChunkText(Mark('-'));
    ChunksAppend(SignChunks(negative), chunks);
  }

  lemma FloatIsText(x: Float)
    ensures ChunksText(FloatChunks(x)) == FloatText(x)
  {
    hide ChunksText, SignChunks, ExponentChunks, ExponentText;
    match x
    case Finite(negative, whole, fraction, exponent) =>
      var number := Num(whole + FractionText(fraction));
      OneChunkText(number);
      ExponentIsText(exponent);
      ChunksAppend([number], ExponentChunks(exponent));
      SignIsText(negative, [number] + ExponentChunks(exponent));
    case NaN => OneChunkText(Ident("NaN"));
    case Infinite(negative) =>
      OneChunkText(Ident("Infinity"));
      SignIsText(negative, [Ident("Infinity")]);
      assert (if negative then "-" else "") + "Infinity" == FloatText(x);
  }

  lemma EntryIsText(key: string, value: seq<Chunk>)
    ensures ChunksText(EntryChunks(key, value)) == Quoted(key) + ": " + ChunksText(value)
  {
    hide ChunksText, Quoted;
    ThreeChunksText(Str(key), Mark(':'), Space);
    ChunksAppend([Str(key), Mark(':'), Space], value);
    assert Quoted(key) + (":" + " ") == Quoted(key) + ": ";
  }

  lemma {:induction false} ValueIsText(v: Value)
    ensures ChunksText(ValueChunks(v)) == Groovy(v)
  {
    hide ChunksText, JoinChunks, Join;
    TwoChunksText(Mark(','), Space);
    assert ChunksText(COMMA_SPACE) == ", ";
    match v
    case Text(s) => OneChunkText(Str(s));
    case Integer(n) =>
      OneChunkText(Num(Digits(if n < 0 then 0 else n)));
      if n < 0 { TwoChunksText(Mark('-'), Num(Digits(-n))); }
    case Real(x) => FloatIsText(x);
    case Flag(b) => OneChunkText(Ident(if b then "true" else "false"));
    case Null => OneChunkText(Ident("null"));
    case Items(items) =>
      var parts := seq(|items|, i requires 0 <= i < |items| => ValueChunks(items[i]));
      var texts := seq(|items|, i requires 0 <= i < |items| => Groovy(items[i]));
      forall i | 0 <= i < |items| ensures ChunksText(parts[i]) == texts[i] { ValueIsText(items[i]); }
      JoinText(", ", COMMA_SPACE, texts, parts);
      EnclosedText('[', JoinChunks(COMMA_SPACE, parts), ']');
    case Entries(entries) =>
      var parts := seq(|entries|, i requires 0 <= i < |entries| =>
                       EntryChunks(entries[i].0, ValueChunks(entries[i].1)));
      var texts := seq(|entries|, i requires 0 <= i < |entries| => Quoted(entries[i].0) + ": " + Groovy(entries[i].1));
      forall i | 0 <= i < |entries| ensures ChunksText(parts[i]) == texts[i] {
        ValueIsText(entries[i].1);
        EntryIsText(entries[i].0, ValueChunks(entries[i].1));
      }
      JoinText(", ", COMMA_SPACE, texts, parts);
      EnclosedText('[', JoinChunks(COMMA_SPACE, parts), ']');
  }

  lemma CallIsText(name: string, texts: seq<string>, parts: seq<seq<Chunk>>)
    requires |texts| == |parts| && forall i | 0 <= i < |parts| :: ChunksText(parts[i]) == texts[i]
    ensures ChunksText(CallChunks(name, parts)) == CallText(name, texts)
  {
    hide ChunksText, JoinChunks, Join;
    OneChunkText(Mark(','));
    OneChunkText(Ident(name));
    JoinText(",", COMMA, texts, parts);
    EnclosedText('(', JoinChunks(COMMA, parts), ')');
    ChunksAppend([Ident(name)], Enclosed('(', JoinChunks(COMMA, parts), ')'));
  }

  lemma {:induction false} ArgIsText(a: Arg)
    ensures ChunksText(ArgChunks(a)) == ArgText(a)
    decreases a
  {
    hide ChunksText, CallChunks, CallText, ConcatChunks, Concat;
    match a
    case Given(v) => ValueIsText(v);
    case Anonymous(name, args, rest) =>
      var parts := seq(|args|, i requires 0 <= i < |args| => ArgChunks(args[i]));
      var texts := seq(|args|, i requires 0 <= i < |args| => ArgText(args[i]));
      forall i | 0 <= i < |args| ensures ChunksText(parts[i]) == texts[i] { ArgIsText(args[i]); }
      CallIsText(name, texts, parts);
      var steps := seq(|rest|, i requires 0 <= i < |rest| => StepChunks(rest[i]));
      var stepTexts := seq(|rest|, i requires 0 <= i < |rest| => StepText(rest[i]));
      forall i | 0 <= i < |rest| ensures ChunksText(steps[i]) == stepTexts[i] { StepIsText(rest[i]); }
      ConcatText(stepTexts, steps);
      ChunksAppend(CallChunks(name, parts), ConcatChunks(steps));
    case Member(owner, name) => ThreeChunksText(Ident(owner), Mark('.'), Ident(name));
  }

  lemma {:induction false} StepIsText(s: Step)
    ensures ChunksText(StepChunks(s)) == StepText(s)
    decreases s
  {
    hide ChunksText, CallChunks, CallText;
    var parts := seq(|s.args|, i requires 0 <= i < |s.args| => ArgChunks(s.args[i]));
    var texts := seq(|s.args|, i requires 0 <= i < |s.args| => ArgText(s.args[i]));
    forall i | 0 <= i < |s.args| ensures ChunksText(parts[i]) == texts[i] { ArgIsText(s.args[i]); }
    CallIsText(s.name, texts, parts);
    OneChunkText(Mark('.'));
    ChunksAppend([Mark('.')], CallChunks(s.name, parts));
  }

  lemma QueryIsText(steps: seq<Step>)
    ensures ChunksText(QueryChunks(steps)) == QueryText(steps)
  {
    hide ChunksText, StepChunks, StepText, ConcatChunks, Concat;
    var parts := seq(|steps|, i requires 0 <= i < |steps| => StepChunks(steps[i]));
    forall i | 0 <= i < |steps| ensures ChunksText(parts[i]) == StepTexts(steps)[i] { StepIsText(steps[i]); }
    ConcatText(StepTexts(steps), parts);
    OneChunkText(Ident("g"));
    ChunksAppend([Ident("g")], StepsChunks(steps));
  }
}
