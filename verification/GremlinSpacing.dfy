/** The printer keeps its lexemes apart: the text of every traversal is scanned back into them. */
module GremlinSpacing {
  import opened Wrappers
  import opened GremlinLexer
  import opened GremlinAnalysis
  import opened GremlinPrinter
  import opened GremlinChunks
  import opened GremlinSyntax

  /** All step and member names are identifiers. */
  predicate SpelledArg(a: Arg) {
    match a
    case Given(_) => true
    case Anonymous(name, args, rest) =>
      && IsIdentifierText(name)
      && (forall i | 0 <= i < |args| :: SpelledArg(args[i])) && (forall i | 0 <= i < |rest| :: SpelledStep(rest[i]))
    case Member(owner, name) => IsIdentifierText(owner) && IsIdentifierText(name)
  }

  predicate SpelledStep(s: Step) {
    IsIdentifierText(s.name) && forall i | 0 <= i < |s.args| :: SpelledArg(s.args[i])
  }

  /** What the printer puts after a value. */
  predicate Delimits(after: Option<char>) {
    after.None? || after.value in {',', ')', ']', ' ', ':'}
  }

  /** Well spaced before a delimiter. */
  ghost predicate Compact(cs: seq<Chunk>) {
    forall after :: Delimits(after) ==> Spaced(cs, after)
  }

  /** Well spaced before anything. */
  ghost predicate Closed(cs: seq<Chunk>) {
    forall after :: Spaced(cs, after)
  }

  lemma OneSpaced(c: Chunk, after: Option<char>)
    ensures Spaced([c], after) <==> ChunkFits(c, after)
  {
    assert Spaced([], after);
    SpacedFirst(c, [], after);
    assert [c] + [] == [c];
  }

  lemma OneCompact(w: Word)
    requires Scannable(w)
    ensures Compact([Code(w)])
  {
    forall after | Delimits(after) ensures Spaced([Code(w)], after) {
      OneSpaced(Code(w), after);
    }
  }

  lemma MarkFits(c: char, after: Option<char>)
    requires IsSafePunctuation(c)
    ensures ChunkFits(Mark(c), after)
  {
  }

  /** A mark in front changes nothing. */
  lemma MarkThen(c: char, cs: seq<Chunk>, after: Option<char>)
    requires IsSafePunctuation(c) && Spaced(cs, after)
    ensures Spaced([Mark(c)] + cs, after) && FirstChar([Mark(c)] + cs, after) == Some(c)
  {
    MarkFits(c, FirstChar(cs, after));
    SpacedFirst(Mark(c), cs, after);
  }

  lemma SpaceThen(cs: seq<Chunk>, after: Option<char>)
    requires Spaced(cs, after)
    ensures Spaced([Space] + cs, after)
  {
    SpacedFirst(Space, cs, after);
  }

  lemma CompactThen(a: seq<Chunk>, b: seq<Chunk>, after: Option<char>)
    requires Compact(a) && Spaced(b, after) && Delimits(FirstChar(b, after))
    ensures Spaced(a + b, after)
  {
    SpacedAppend(a, b, after);
  }

  lemma EnclosedIsClosed(open: char, inside: seq<Chunk>, close: char)
    requires (open == '(' && close == ')') || (open == '[' && close == ']')
    requires Compact(inside)
    ensures Closed(Enclosed(open, inside, close))
  {
    hide Spaced, FirstChar, Compact;
    forall after ensures Spaced(Enclosed(open, inside, close), after) {
      MarkFits(close, after);
      OneSpaced(Mark(close), after);
      SpacedFirst(Mark(close), [], after);
      assert [Mark(close)] + [] == [Mark(close)];
      CompactThen(inside, [Mark(close)], after);
      MarkThen(open, inside + [Mark(close)], after);
    }
  }

  lemma SeparatorThen(sep: seq<Chunk>, cs: seq<Chunk>, after: Option<char>)
    requires sep == COMMA || sep == COMMA_SPACE
    requires Spaced(cs, after)
    ensures Spaced(sep + cs, after) && FirstChar(sep + cs, after) == Some(',')
  {
    hide Spaced, FirstChar;
    if sep == COMMA {
      MarkThen(',', cs, after);
    } else {
      SpaceThen(cs, after);
      MarkThen(',', [Space] + cs, after);
      assert [Mark(',')] + ([Space] + cs) == sep + cs;
    }
  }

  lemma {:induction false} JoinIsCompact(sep: seq<Chunk>, parts: seq<seq<Chunk>>)
    requires sep == COMMA || sep == COMMA_SPACE
    requires forall i | 0 <= i < |parts| :: Compact(parts[i])
    ensures Compact(JoinChunks(sep, parts))
    decreases |parts|
  {
    hide Spaced, FirstChar;
    if parts == [] {
      NothingIsClosed();
    } else if |parts| > 1 {
      JoinIsCompact(sep, parts[1..]);
      forall after | Delimits(after) ensures Spaced(JoinChunks(sep, parts), after) {
        SeparatorThen(sep, JoinChunks(sep, parts[1..]), after);
        CompactThen(parts[0], sep + JoinChunks(sep, parts[1..]), after);
      }
    }
  }

  lemma NothingIsClosed()
    ensures Closed([])
  {
  }

  lemma {:induction false} ConcatIsClosed(parts: seq<seq<Chunk>>)
    requires forall i | 0 <= i < |parts| :: Closed(parts[i])
    ensures Closed(ConcatChunks(parts))
    decreases |parts|
  {
    hide Spaced, FirstChar;
    if parts == [] {
      NothingIsClosed();
    } else {
      ConcatIsClosed(parts[1..]);
      forall after ensures Spaced(ConcatChunks(parts), after) {
        SpacedAppend(parts[0], ConcatChunks(parts[1..]), after);
      }
    }
  }

  // ---- Numbers --------------------------------------------------------------------------

  lemma {:induction false} DigitsAreNumber(s: string, seenDot: bool)
    requires AllDigits(s)
    ensures IsNumberText(s, seenDot)
    decreases |s|
  {
    if s != "" { DigitsAreNumber(s[1..], seenDot); }
  }

  lemma {:induction false} FractionIsNumber(whole: string, fraction: string)
    requires AllDigits(whole) && AllDigits(fraction)
    ensures IsNumberText(whole + ("." + fraction), false)
    decreases |whole|
  {
    if whole == "" {
      DigitsAreNumber(fraction, true);
      assert (whole + ("." + fraction))[1..] == fraction;
    } else {
      FractionIsNumber(whole[1..], fraction);
      assert (whole + ("." + fraction))[1..] == whole[1..] + ("." + fraction);
    }
  }

  lemma DigitsAreScannable(s: DigitString)
    ensures Scannable(Word(Number, s))
  {
    DigitsAreNumber(s, false);
  }

  lemma FloatNumberIsScannable(whole: DigitString, fraction: Option<DigitString>)
    ensures Scannable(Word(Number, whole + FractionText(fraction)))
  {
    DigitsAreNumber(whole, false);
    if fraction.Some? {
      FractionIsNumber(whole, fraction.value);
    } else {
      assert whole + "" == whole;
    }
  }

  lemma NamesAreScannable()
    ensures forall s | s in {"true", "false", "null", "e", "NaN", "Infinity", "g"} :: Scannable(Word(Identifier, s))
  {
    forall s | s in {"true", "false", "null", "e", "NaN", "Infinity", "g"} ensures IsIdentifierText(s) {}
  }

  lemma IntegerIsCompact(n: int)
    ensures Compact(IntegerChunks(n))
  {
    var digits := Digits(if n < 0 then -n else n);
    DigitsAreScannable(digits);
    OneCompact(Word(Number, digits));
    hide Spaced;
    if n < 0 {
      forall after | Delimits(after) ensures Spaced(IntegerChunks(n), after) {
        MarkThen('-', [Num(digits)], after);
        assert [Mark('-')] + [Num(digits)] == IntegerChunks(n);
      }
    }
  }

  lemma SignIsCompact(negative: bool, cs: seq<Chunk>)
    requires Compact(cs)
    ensures Compact(SignChunks(negative) + cs)
  {
    hide Spaced;
    if negative {
      forall after | Delimits(after) ensures Spaced(SignChunks(negative) + cs, after) {
        MarkThen('-', cs, after);
      }
    } else {
      assert SignChunks(negative) + cs == cs;
    }
  }

  /** An exponent, and the number before it. */
  lemma ExponentIsCompact(w: Word, exponent: Exponent)
    requires w.kind == Number && Scannable(w)
    ensures Compact([Code(w)] + ExponentChunks(Some(exponent)))
  {
    var sign := if exponent.negative then Mark('-') else Code(Word(Unknown, "+"));
    var digits := Num(exponent.digits);
    NamesAreScannable();
    DigitsAreScannable(exponent.digits);
    OneCompact(digits.word);
    hide Spaced;
    forall after | Delimits(after) ensures Spaced([Code(w)] + ExponentChunks(Some(exponent)), after) {
      SpacedFirst(sign, [digits], after);
      assert ChunkFits(sign, FirstChar([digits], after));
      SpacedFirst(Ident("e"), [sign] + [digits], after);
      SpacedFirst(Code(w), [Ident("e")] + ([sign] + [digits]), after);
      assert [Ident("e")] + ([sign] + [digits]) == ExponentChunks(Some(exponent));
    }
  }

  lemma FloatIsCompact(x: Float)
    ensures Compact(FloatChunks(x))
  {
    hide Spaced, Compact, Scannable, ExponentChunks;
    NamesAreScannable();
    match x
    case Finite(negative, whole, fraction, exponent) =>
      var w := Word(Number, whole + FractionText(fraction));
      FloatNumberIsScannable(whole, fraction);
      if exponent.Some? {
        ExponentIsCompact(w, exponent.value);
      } else {
        OneCompact(w);
        NoExponent();
        assert [Code(w)] + [] == [Code(w)];
      }
      SignIsCompact(negative, [Code(w)] + ExponentChunks(exponent));
    case NaN => OneCompact(Word(Identifier, "NaN"));
    case Infinite(negative) =>
      OneCompact(Word(Identifier, "Infinity"));
      SignIsCompact(negative, [Ident("Infinity")]);
  }

  lemma NoExponent()
    ensures ExponentChunks(None) == []
  {
  }

  // ---- Values, arguments, steps ---------------------------------------------------------------

  lemma StringIsScannable(s: string)
    ensures Scannable(Word(StringLiteral, Quoted(s)))
  {
  }

  lemma ClosedIsCompact(cs: seq<Chunk>)
    requires Closed(cs)
    ensures Compact(cs)
  {
  }

  lemma EntryIsCompact(key: string, value: seq<Chunk>)
    requires Compact(value)
    ensures Compact(EntryChunks(key, value))
  {
    StringIsScannable(key);
    OneCompact(Word(StringLiteral, Quoted(key)));
    hide Spaced, FirstChar, Quoted;
    forall after | Delimits(after) ensures Spaced(EntryChunks(key, value), after) {
      SpaceThen(value, after);
      MarkThen(':', [Space] + value, after);
      CompactThen([Str(key)], [Mark(':')] + ([Space] + value), after);
      assert [Str(key)] + ([Mark(':')] + ([Space] + value)) == EntryChunks(key, value);
    }
  }

  lemma {:induction false} ValueIsCompact(v: Value)
    ensures Compact(ValueChunks(v))
  {
    hide Spaced, Compact, Closed, Scannable, JoinChunks, Enclosed;
    NamesAreScannable();
    match v
    case Text(s) =>
      StringIsScannable(s);
      OneCompact(Word(StringLiteral, Quoted(s)));
    case Integer(n) => IntegerIsCompact(n);
    case Real(x) => FloatIsCompact(x);
    case Flag(b) => OneCompact(Word(Identifier, if b then "true" else "false"));
    case Null => OneCompact(Word(Identifier, "null"));
    case Items(items) =>
      var parts := seq(|items|, i requires 0 <= i < |items| => ValueChunks(items[i]));
      forall i | 0 <= i < |items| ensures Compact(parts[i]) { ValueIsCompact(items[i]); }
      ListIsCompact(parts);
    case Entries(entries) =>
      var parts := seq(|entries|, i requires 0 <= i < |entries| =>
                       EntryChunks(entries[i].0, ValueChunks(entries[i].1)));
      forall i | 0 <= i < |entries| ensures Compact(parts[i]) {
        ValueIsCompact(entries[i].1);
        EntryIsCompact(entries[i].0, ValueChunks(entries[i].1));
      }
      ListIsCompact(parts);
  }

  lemma ListIsCompact(parts: seq<seq<Chunk>>)
    requires forall i | 0 <= i < |parts| :: Compact(parts[i])
    ensures Compact(Enclosed('[', JoinChunks(COMMA_SPACE, parts), ']'))
  {
    JoinIsCompact(COMMA_SPACE, parts);
    EnclosedIsClosed('[', JoinChunks(COMMA_SPACE, parts), ']');
    ClosedIsCompact(Enclosed('[', JoinChunks(COMMA_SPACE, parts), ']'));
  }

  lemma CallIsClosed(name: string, parts: seq<seq<Chunk>>)
    requires IsIdentifierText(name) && forall i | 0 <= i < |parts| :: Compact(parts[i])
    ensures Closed(CallChunks(name, parts))
  {
    hide Compact, JoinChunks, Spaced;
    JoinIsCompact(COMMA, parts);
    EnclosedIsClosed('(', JoinChunks(COMMA, parts), ')');
    var call := Enclosed('(', JoinChunks(COMMA, parts), ')');
    forall after ensures Spaced(CallChunks(name, parts), after) {
      assert FirstChar(call, after) == Some('(');
      SpacedFirst(Ident(name), call, after);
    }
  }

  lemma {:induction false} ArgIsCompact(a: Arg)
    requires SpelledArg(a)
    ensures Compact(ArgChunks(a))
    decreases a
  {
    hide Spaced, Compact, Closed, CallChunks, ConcatChunks;
    match a
    case Given(v) => ValueIsCompact(v);
    case Anonymous(name, args, rest) =>
      var parts := seq(|args|, i requires 0 <= i < |args| => ArgChunks(args[i]));
      forall i | 0 <= i < |args| ensures Compact(parts[i]) { ArgIsCompact(args[i]); }
      CallIsClosed(name, parts);
      var steps := seq(|rest|, i requires 0 <= i < |rest| => StepChunks(rest[i]));
      forall i | 0 <= i < |rest| ensures Closed(steps[i]) { StepIsClosed(rest[i]); }
      ConcatIsClosed(steps);
      ClosedThenClosed(CallChunks(name, parts), ConcatChunks(steps));
    case Member(owner, name) => MemberIsCompact(owner, name);
  }

  lemma ClosedThenClosed(a: seq<Chunk>, b: seq<Chunk>)
    requires Closed(a) && Closed(b)
    ensures Closed(a + b) && Compact(a + b)
  {
    hide Spaced, FirstChar;
    forall after ensures Spaced(a + b, after) { SpacedAppend(a, b, after); }
  }

  lemma MemberIsCompact(owner: string, name: string)
    requires IsIdentifierText(owner) && IsIdentifierText(name)
    ensures Compact([Ident(owner), Mark('.'), Ident(name)])
  {
    OneCompact(Word(Identifier, name));
    hide Spaced;
    forall after | Delimits(after) ensures Spaced([Ident(owner), Mark('.'), Ident(name)], after) {
      MarkThen('.', [Ident(name)], after);
      SpacedFirst(Ident(owner), [Mark('.')] + [Ident(name)], after);
      assert [Ident(owner)] + ([Mark('.')] + [Ident(name)]) == [Ident(owner), Mark('.'), Ident(name)];
    }
  }

  lemma {:induction false} StepIsClosed(s: Step)
    requires SpelledStep(s)
    ensures Closed(StepChunks(s))
    decreases s
  {
    hide Spaced, Compact, CallChunks;
    var parts := seq(|s.args|, i requires 0 <= i < |s.args| => ArgChunks(s.args[i]));
    forall i | 0 <= i < |s.args| ensures Compact(parts[i]) { ArgIsCompact(s.args[i]); }
    CallIsClosed(s.name, parts);
    forall after ensures Spaced(StepChunks(s), after) { MarkThen('.', CallChunks(s.name, parts), after); }
  }

  predicate SpelledSteps(steps: seq<Step>) {
    forall i | 0 <= i < |steps| :: SpelledStep(steps[i])
  }

  lemma QueryIsSpaced(steps: seq<Step>)
    requires SpelledSteps(steps)
    ensures Spaced(QueryChunks(steps), None)
  {
    hide Spaced, Closed, StepChunks, Scannable;
    var parts := seq(|steps|, i requires 0 <= i < |steps| => StepChunks(steps[i]));
    forall i | 0 <= i < |steps| ensures Closed(parts[i]) { StepIsClosed(steps[i]); }
    ConcatIsClosed(parts);
    NamesAreScannable();
    DotComesFirst(steps);
    ClosedBeforeEnd(StepsChunks(steps));
    SpacedFirst(Ident("g"), StepsChunks(steps), None);
  }

  lemma ClosedBeforeEnd(cs: seq<Chunk>)
    requires Closed(cs)
    ensures Spaced(cs, None)
  {
  }

  lemma DotComesFirst(steps: seq<Step>)
    ensures FirstChar(StepsChunks(steps), None) == if steps == [] then None else Some('.')
  {
  }

  /** Every traversal with well-spelled names, whatever its values, is scanned back completely and
      exactly into the lexemes it was printed from. */
  lemma PrintedQueryIsScanned(steps: seq<Step>)
    requires SpelledSteps(steps)
    ensures var lexed := Lex(QueryText(steps));
            && lexed.valid && Words(lexed.tokens) == CodeOf(QueryChunks(steps))
            && (MarkerFreeWords(CodeOf(QueryChunks(steps))) ==> MarkerFree(lexed.normalized))
  {
    hide *;
    QueryIsText(steps);
    QueryIsSpaced(steps);
    WholeText(QueryText(steps));
    ChunksAreScanned(QueryText(steps), 0, QueryChunks(steps));
    LexIs(QueryText(steps));
  }

  lemma WholeText(q: string)
    ensures EndsWith(q, 0, q)
  {
    assert q[0..] == q;
  }

  lemma LexIs(q: string)
    ensures Lex(q) == Lexed(TokensFrom(q, 0), ValidFrom(q, 0), NormalizedFrom(q, 0))
  {
  }
}
