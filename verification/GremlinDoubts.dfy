/** Printed numbers that the classifier cannot read: a read traversal with one of them stays in doubt. */
module GremlinDoubts {
  import opened Wrappers
  import opened GremlinLexer
  import opened GremlinAnalysis
  import opened GremlinPrinter
  import opened GremlinChunks
  import opened GremlinSyntax
  import opened GremlinGrammar
  import opened GremlinReads
  import opened GremlinSafety

  // ---- Words no safe query has -----------------------------------------------------------------

  /** An unknown character, or a name that a number is printed with and that is not called. */
  predicate OddAt(ws: seq<Word>, i: nat)
    requires i < |ws|
  {
    || ws[i].kind == Unknown
    || (ws[i].kind == Identifier && Lower(ws[i].text) in {"nan", "infinity", "e"} && !IsCall(ws, i))
  }

  predicate Odd(ws: seq<Word>) {
    exists i :: 0 <= i < |ws| && OddAt(ws, i)
  }

  lemma OddOnTheLeft(ws: seq<Word>, after: seq<Word>)
    requires Odd(ws) && (after == [] || after[0].text != "(")
    ensures Odd(ws + after)
  {
    var i :| 0 <= i < |ws| && OddAt(ws, i);
    assert i < |ws| - 1 ==> (ws + after)[i + 1] == ws[i + 1];
    assert OddAt(ws + after, i);
  }

  lemma OddOnTheRight(before: seq<Word>, ws: seq<Word>)
    requires Odd(ws)
    ensures Odd(before + ws)
  {
    var i :| 0 <= i < |ws| && OddAt(ws, i);
    assert i < |ws| - 1 ==> (before + ws)[|before| + i + 1] == ws[i + 1];
    assert OddAt(before + ws, |before| + i);
  }

  lemma OddDoesNotOnlyRead(ws: seq<Word>, normalized: string)
    requires Odd(ws)
    ensures !ReadOnly(ws, normalized)
  {
    hide HasMarker, HasReadRoot, Nesting, BadDot, IsBrace, IsReadStep;
    var i :| 0 <= i < |ws| && OddAt(ws, i);
    NoSuchNames();
    assert !OnlyReads(ws, i);
  }

  lemma NoSuchNames()
    ensures forall s | s in {"nan", "infinity", "e"} :: s !in LITERALS && s != "g"
  {
  }

  // ---- They survive in any surroundings ----------------------------------------------------------

  lemma {:induction false} OddJoin(parts: seq<seq<Word>>, k: nat)
    requires k < |parts| && Odd(parts[k])
    ensures Odd(JoinWords(parts))
    decreases |parts|
  {
    hide Odd;
    if |parts| > 1 {
      if k == 0 {
        OddOnTheLeft(parts[0], [MarkWord(',')] + JoinWords(parts[1..]));
      } else {
        OddJoin(parts[1..], k - 1);
        OddOnTheRight([MarkWord(',')], JoinWords(parts[1..]));
        OddOnTheRight(parts[0], [MarkWord(',')] + JoinWords(parts[1..]));
      }
    }
  }

  lemma {:induction false} OddConcat(parts: seq<seq<Word>>, k: nat)
    requires k < |parts| && Odd(parts[k])
    requires forall i | 0 <= i < |parts| :: parts[i] != [] && parts[i][0] == MarkWord('.')
    ensures Odd(ConcatWords(parts))
    decreases |parts|
  {
    hide Odd;
    if k == 0 {
      OddOnTheLeft(parts[0], ConcatWords(parts[1..]));
    } else {
      OddConcat(parts[1..], k - 1);
      OddOnTheRight(parts[0], ConcatWords(parts[1..]));
    }
  }

  lemma OddEnclosed(open: char, inside: seq<Word>, close: char)
    requires Odd(inside) && close != '('
    ensures Odd([MarkWord(open)] + (inside + [MarkWord(close)]))
  {
    hide Odd;
    OddOnTheLeft(inside, [MarkWord(close)]);
    OddOnTheRight([MarkWord(open)], inside + [MarkWord(close)]);
  }

  lemma OddList(parts: seq<seq<Chunk>>, k: nat)
    requires k < |parts| && Odd(CodeOf(parts[k]))
    ensures Odd(CodeOf(Enclosed('[', JoinChunks(COMMA_SPACE, parts), ']')))
  {
    hide Odd, CodeOf;
    CodeOfJoin(COMMA_SPACE, parts);
    CodeOfEnclosed('[', JoinChunks(COMMA_SPACE, parts), ']');
    OddJoin(Codes(parts), k);
    OddEnclosed('[', JoinWords(Codes(parts)), ']');
  }

  lemma OddEntry(key: string, value: seq<Chunk>)
    requires Odd(CodeOf(value))
    ensures Odd(CodeOf(EntryChunks(key, value)))
  {
    hide Odd, CodeOf, Quoted;
    CodeOfEntry(key, value);
    OddOnTheRight([MarkWord(':')], CodeOf(value));
    OddOnTheRight([Word(StringLiteral, Quoted(key))], [MarkWord(':')] + CodeOf(value));
  }

  lemma OddCall(name: string, parts: seq<seq<Chunk>>, k: nat)
    requires k < |parts| && Odd(CodeOf(parts[k]))
    ensures Odd(CodeOf(CallChunks(name, parts)))
  {
    hide Odd, CodeOf;
    CodeOfCall(name, parts);
    OddJoin(Codes(parts), k);
    OddEnclosed('(', JoinWords(Codes(parts)), ')');
    OddOnTheRight([Word(Identifier, name)], [MarkWord('(')] + (JoinWords(Codes(parts)) + [MarkWord(')')]));
  }

  lemma OddSteps(steps: seq<Step>, k: nat)
    requires k < |steps| && Odd(CodeOf(StepChunks(steps[k])))
    ensures Odd(CodeOf(StepsChunks(steps)))
  {
    hide Odd, CodeOf, StepChunks;
    var parts := seq(|steps|, i requires 0 <= i < |steps| => StepChunks(steps[i]));
    CodeOfConcat(parts);
    forall i | 0 <= i < |steps| ensures Codes(parts)[i] != [] && Codes(parts)[i][0] == MarkWord('.') {
      CodeOfStep(steps[i]);
    }
    OddConcat(Codes(parts), k);
  }

  // ---- Numbers that are not plain ----------------------------------------------------------------

  lemma OddName(before: seq<Chunk>, name: string)
    requires Lower(name) in {"nan", "infinity"}
    ensures Odd(CodeOf(before + [Ident(name)]))
  {
    hide CodeOf;
    OneCode(Ident(name));
    assert OddAt([Word(Identifier, name)], 0);
    ChunksAppend(before, [Ident(name)]);
    OddOnTheRight(CodeOf(before), [Word(Identifier, name)]);
  }

  lemma OddExponent(whole: string, exponent: Exponent)
    ensures Odd(CodeOf([Num(whole)] + ExponentChunks(Some(exponent))))
  {
    hide CodeOf;
    var sign := if exponent.negative then Mark('-') else Code(Word(Unknown, "+"));
    OneCode(Num(exponent.digits));
    FirstChunk(sign, [Num(exponent.digits)]);
    FirstChunk(Ident("e"), [sign] + [Num(exponent.digits)]);
    FirstChunk(Num(whole), [Ident("e")] + ([sign] + [Num(exponent.digits)]));
    assert [Ident("e")] + ([sign] + [Num(exponent.digits)]) == ExponentChunks(Some(exponent));
    var ws := CodeOf([Num(whole)] + ExponentChunks(Some(exponent)));
    assert ws == [Word(Number, whole), Word(Identifier, "e"), sign.word, Word(Number, exponent.digits)];
    assert Lower("e") == "e";
    assert OddAt(ws, 1);
  }

  lemma OddFloat(x: Float)
    requires !x.Finite? || x.exponent.Some?
    ensures Odd(CodeOf(FloatChunks(x)))
  {
    hide Odd, CodeOf;
    match x
    case Finite(negative, whole, fraction, exponent) =>
      var s := whole + FractionText(fraction);
      OddExponent(s, exponent.value);
      var rest := [Num(s)] + ExponentChunks(exponent);
      ChunksAppend(SignChunks(negative), rest);
      OddOnTheRight(CodeOf(SignChunks(negative)), CodeOf(rest));
    case NaN =>
      assert Lower("NaN") == "nan";
      OddName([], "NaN");
      assert [] + [Ident("NaN")] == [Ident("NaN")];
    case Infinite(negative) =>
      assert Lower("Infinity") == "infinity";
      OddName(SignChunks(negative), "Infinity");
  }

  lemma {:induction false} OddValue(v: Value)
    requires !PlainValue(v)
    ensures Odd(CodeOf(ValueChunks(v)))
    decreases v
  {
    hide Odd, CodeOf, JoinChunks, Enclosed, EntryChunks;
    match v
    case Real(x) => OddFloat(x);
    case Items(items) =>
      var parts := seq(|items|, i requires 0 <= i < |items| => ValueChunks(items[i]));
      var k :| 0 <= k < |items| && !PlainValue(items[k]);
      OddValue(items[k]);
      OddList(parts, k);
    case Entries(entries) =>
      var parts := seq(|entries|, i requires 0 <= i < |entries| =>
                       EntryChunks(entries[i].0, ValueChunks(entries[i].1)));
      var k :| 0 <= k < |entries| && !PlainValue(entries[k].1);
      OddValue(entries[k].1);
      OddEntry(entries[k].0, ValueChunks(entries[k].1));
      OddList(parts, k);
    case _ =>
  }

  lemma StepsStartWithADot(steps: seq<Step>)
    ensures var ws := CodeOf(StepsChunks(steps)); ws == [] || ws[0] == MarkWord('.')
  {
    hide CodeOf, StepChunks;
    if steps == [] { NoChunks(); } else { RootOfQuery(steps); }
  }

  lemma {:induction false} OddArg(a: Arg)
    requires !PlainArg(a)
    ensures Odd(CodeOf(ArgChunks(a)))
    decreases a
  {
    hide Odd, CodeOf, CallChunks, ConcatChunks, PlainValue;
    match a
    case Given(v) => OddValue(v);
    case Anonymous(name, args, rest) =>
      var parts := seq(|args|, i requires 0 <= i < |args| => ArgChunks(args[i]));
      var steps := seq(|rest|, i requires 0 <= i < |rest| => StepChunks(rest[i]));
      ChunksAppend(CallChunks(name, parts), ConcatChunks(steps));
      if k :| 0 <= k < |args| && !PlainArg(args[k]) {
        OddArg(args[k]);
        OddCall(name, parts, k);
        StepsStartWithADot(rest);
        OddOnTheLeft(CodeOf(CallChunks(name, parts)), CodeOf(ConcatChunks(steps)));
      } else {
        var k :| 0 <= k < |rest| && !PlainStep(rest[k]);
        OddStep(rest[k]);
        OddSteps(rest, k);
        OddOnTheRight(CodeOf(CallChunks(name, parts)), CodeOf(ConcatChunks(steps)));
      }
  }

  lemma {:induction false} OddStep(s: Step)
    requires !PlainStep(s)
    ensures Odd(CodeOf(StepChunks(s)))
    decreases s
  {
    hide Odd, CodeOf, CallChunks;
    var parts := seq(|s.args|, i requires 0 <= i < |s.args| => ArgChunks(s.args[i]));
    var k :| 0 <= k < |s.args| && !PlainArg(s.args[k]);
    OddArg(s.args[k]);
    OddCall(s.name, parts, k);
    FirstChunk(Mark('.'), CallChunks(s.name, parts));
    OddOnTheRight([MarkWord('.')], CodeOf(CallChunks(s.name, parts)));
  }

  lemma OddQuery(steps: seq<Step>)
    requires !PlainSteps(steps)
    ensures Odd(CodeOf(QueryChunks(steps)))
  {
    hide Odd, CodeOf, StepsChunks, PlainStep;
    var k :| 0 <= k < |steps| && !PlainStep(steps[k]);
    OddStep(steps[k]);
    OddSteps(steps, k);
    FirstChunk(Ident("g"), StepsChunks(steps));
    OddOnTheRight([Word(Identifier, "g")], CodeOf(StepsChunks(steps)));
  }

  // ---- Read traversals name no write step ----------------------------------------------------------

  predicate HarmlessChunk(c: Chunk) {
    c.Code? && c.word.kind == Identifier ==> !IsWrite(Lower(c.word.text))
  }

  predicate HarmlessChunks(cs: seq<Chunk>) {
    forall c | c in cs :: HarmlessChunk(c)
  }

  lemma {:induction false} HarmlessCode(cs: seq<Chunk>)
    requires HarmlessChunks(cs)
    ensures Harmless(CodeOf(cs))
  {
    hide IsWrite, Lower;
    if cs != [] {
      HarmlessCode(cs[1..]);
      assert cs[0] in cs && HarmlessChunk(cs[0]);
    }
  }

  lemma HarmlessAppend(a: seq<Chunk>, b: seq<Chunk>)
    requires HarmlessChunks(a) && HarmlessChunks(b)
    ensures HarmlessChunks(a + b)
  {
    hide HarmlessChunk;
  }

  lemma {:induction false} HarmlessJoin(sep: seq<Chunk>, parts: seq<seq<Chunk>>)
    requires HarmlessChunks(sep) && forall i | 0 <= i < |parts| :: HarmlessChunks(parts[i])
    ensures HarmlessChunks(JoinChunks(sep, parts))
    decreases |parts|
  {
    if |parts| > 1 {
      hide HarmlessChunks;
      HarmlessJoin(sep, parts[1..]);
      HarmlessAppend(sep, JoinChunks(sep, parts[1..]));
      HarmlessAppend(parts[0], sep + JoinChunks(sep, parts[1..]));
    }
  }

  lemma {:induction false} HarmlessConcat(parts: seq<seq<Chunk>>)
    requires forall i | 0 <= i < |parts| :: HarmlessChunks(parts[i])
    ensures HarmlessChunks(ConcatChunks(parts))
    decreases |parts|
  {
    if parts != [] {
      hide HarmlessChunks;
      HarmlessConcat(parts[1..]);
      HarmlessAppend(parts[0], ConcatChunks(parts[1..]));
    }
  }

  /** Marks, spaces and strings are no names. */
  lemma NamelessIsHarmless(cs: seq<Chunk>)
    requires forall c | c in cs && c.Code? :: c.word.kind != Identifier
    ensures HarmlessChunks(cs)
  {
  }

  lemma HarmlessEnclosed(open: char, inside: seq<Chunk>, close: char)
    requires HarmlessChunks(inside)
    ensures HarmlessChunks(Enclosed(open, inside, close))
  {
    NamelessIsHarmless([Mark(open)]);
    NamelessIsHarmless([Mark(close)]);
    hide HarmlessChunks;
    HarmlessAppend(inside, [Mark(close)]);
    HarmlessAppend([Mark(open)], inside + [Mark(close)]);
  }

  lemma HarmlessName(name: string)
    requires !IsWrite(Lower(name))
    ensures HarmlessChunks([Ident(name)])
  {
  }

  /** The names that printed values bring along. */
  lemma ValueNames()
    ensures forall s | s in {"true", "false", "null", "e", "NaN", "Infinity", "g"} :: !IsWrite(Lower(s))
  {
    assert Lower("true") == "true" && Lower("false") == "false" && Lower("null") == "null" && Lower("e") == "e";
    assert Lower("NaN") == "nan" && Lower("Infinity") == "infinity" && Lower("g") == "g";
  }

  lemma HarmlessFloat(x: Float)
    ensures HarmlessChunks(FloatChunks(x))
  {
    ValueNames();
    hide IsWrite, Lower;
    match x
    case Finite(_, _, _, _) =>
    case NaN =>
    case Infinite(_) =>
  }

  lemma {:induction false} HarmlessValue(v: Value)
    ensures HarmlessChunks(ValueChunks(v))
    decreases v
  {
    NamelessIsHarmless(COMMA_SPACE);
    match v
    case Items(items) =>
      hide HarmlessChunks, JoinChunks, Enclosed;
      var parts := seq(|items|, i requires 0 <= i < |items| => ValueChunks(items[i]));
      forall i | 0 <= i < |items| ensures HarmlessChunks(parts[i]) { HarmlessValue(items[i]); }
      HarmlessJoin(COMMA_SPACE, parts);
      HarmlessEnclosed('[', JoinChunks(COMMA_SPACE, parts), ']');
    case Entries(entries) =>
      hide HarmlessChunks, JoinChunks, Enclosed, EntryChunks;
      var parts := seq(|entries|, i requires 0 <= i < |entries| =>
                       EntryChunks(entries[i].0, ValueChunks(entries[i].1)));
      forall i | 0 <= i < |entries| ensures HarmlessChunks(parts[i]) {
        HarmlessValue(entries[i].1);
        HarmlessEntry(entries[i].0, ValueChunks(entries[i].1));
      }
      HarmlessJoin(COMMA_SPACE, parts);
      HarmlessEnclosed('[', JoinChunks(COMMA_SPACE, parts), ']');
    case Real(x) => HarmlessFloat(x);
    case _ =>
      ValueNames();
      hide IsWrite, Lower, Quoted;
  }

  lemma HarmlessEntry(key: string, value: seq<Chunk>)
    requires HarmlessChunks(value)
    ensures HarmlessChunks(EntryChunks(key, value))
  {
    hide Quoted;
    NamelessIsHarmless([Str(key), Mark(':'), Space]);
    hide HarmlessChunks;
    HarmlessAppend([Str(key), Mark(':'), Space], value);
  }

  lemma ReadNamesAreHarmless(lowered: string)
    ensures IsReadStep(lowered) ==> !IsWrite(lowered)
    ensures lowered in ANONYMOUS_READ_METHODS ==> IsReadStep(lowered)
  {
  }

  lemma HarmlessCall(name: string, parts: seq<seq<Chunk>>)
    requires IsReadStep(Lower(name)) || Lower(name) in ANONYMOUS_READ_METHODS
    requires forall i | 0 <= i < |parts| :: HarmlessChunks(parts[i])
    ensures HarmlessChunks(CallChunks(name, parts))
  {
    ReadNamesAreHarmless(Lower(name));
    hide IsReadStep, Lower, JoinChunks, Enclosed;
    HarmlessName(name);
    NamelessIsHarmless(COMMA);
    hide HarmlessChunks;
    HarmlessJoin(COMMA, parts);
    HarmlessEnclosed('(', JoinChunks(COMMA, parts), ')');
    HarmlessAppend([Ident(name)], Enclosed('(', JoinChunks(COMMA, parts), ')'));
  }

  lemma {:induction false} HarmlessArg(a: Arg)
    requires ReadArg(a)
    ensures HarmlessChunks(ArgChunks(a))
    decreases a
  {
    hide HarmlessChunks, CallChunks, ConcatChunks, IsStepName, IsReadStep, Lower;
    match a
    case Given(v) => HarmlessValue(v);
    case Anonymous(name, args, rest) =>
      var parts := seq(|args|, i requires 0 <= i < |args| => ArgChunks(args[i]));
      forall i | 0 <= i < |args| ensures HarmlessChunks(parts[i]) { HarmlessArg(args[i]); }
      var steps := seq(|rest|, i requires 0 <= i < |rest| => StepChunks(rest[i]));
      forall i | 0 <= i < |rest| ensures HarmlessChunks(steps[i]) { HarmlessStep(rest[i]); }
      HarmlessCall(name, parts);
      HarmlessConcat(steps);
      HarmlessAppend(CallChunks(name, parts), ConcatChunks(steps));
  }

  lemma {:induction false} HarmlessStep(s: Step)
    requires ReadStep(s)
    ensures HarmlessChunks(StepChunks(s))
    decreases s
  {
    NamelessIsHarmless([Mark('.')]);
    hide HarmlessChunks, CallChunks, IsStepName, IsReadStep, Lower;
    var parts := seq(|s.args|, i requires 0 <= i < |s.args| => ArgChunks(s.args[i]));
    forall i | 0 <= i < |s.args| ensures HarmlessChunks(parts[i]) { HarmlessArg(s.args[i]); }
    HarmlessCall(s.name, parts);
    HarmlessAppend([Mark('.')], CallChunks(s.name, parts));
  }

  lemma HarmlessQuery(steps: seq<Step>)
    requires ReadSteps(steps)
    ensures Harmless(CodeOf(QueryChunks(steps)))
  {
    ValueNames();
    HarmlessName("g");
    hide CodeOf, HarmlessChunks, StepChunks, ConcatChunks, Harmless, ReadStep;
    var parts := seq(|steps|, i requires 0 <= i < |steps| => StepChunks(steps[i]));
    forall i | 0 <= i < |steps| ensures HarmlessChunks(parts[i]) { HarmlessStep(steps[i]); }
    HarmlessConcat(parts);
    HarmlessAppend([Ident("g")], StepsChunks(steps));
    HarmlessCode(QueryChunks(steps));
  }
}
