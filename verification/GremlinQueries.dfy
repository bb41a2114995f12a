/** The query builders of graph_data_gremlin.py against the classifier of gremlin_policy.py. */
module GremlinQueries {
  import opened Wrappers
  import opened GremlinLexer
  import opened GremlinAnalysis
  import opened GremlinPrinter
  import opened GremlinChunks
  import opened GremlinSyntax
  import opened GremlinSpacing
  import opened GremlinGrammar
  import opened GremlinReads
  import opened GremlinSafety
  import opened GremlinDoubts

  // ---- Markers in the strings --------------------------------------------------------------

  /** Some string in the value, keys included, holds an interpolation or closure marker. */
  predicate MarkedValue(v: Value) {
    match v
    case Text(s) => HasMarker(s)
    case Items(items) => exists i :: 0 <= i < |items| && MarkedValue(items[i])
    case Entries(entries) => exists i :: 0 <= i < |entries| && (HasMarker(entries[i].0) || MarkedValue(entries[i].1))
    case _ => false
  }

  predicate MarkedArg(a: Arg) {
    match a
    case Given(v) => MarkedValue(v)
    case Anonymous(_, args, rest) =>
      (exists i :: 0 <= i < |args| && MarkedArg(args[i])) || (exists i :: 0 <= i < |rest| && MarkedStep(rest[i]))
    case Member(_, _) => false
  }

  predicate MarkedStep(s: Step) {
    exists i :: 0 <= i < |s.args| && MarkedArg(s.args[i])
  }

  predicate MarkedSteps(steps: seq<Step>) {
    exists i :: 0 <= i < |steps| && MarkedStep(steps[i])
  }

  lemma ContainsFirst(s: string, a: char, b: char)
    requires s != ""
    ensures Contains(s, a, b) <==> (s[0] == a && |s| > 1 && s[1] == b) || Contains(s[1..], a, b)
  {
    if k :| 0 <= k < |s| - 1 && s[k] == a && s[k + 1] == b {
      if k > 0 { assert s[1..][k - 1] == a && s[1..][k] == b; }
    }
    if k :| 0 <= k < |s[1..]| - 1 && s[1..][k] == a && s[1..][k + 1] == b {
      assert s[k + 1] == a && s[k + 2] == b;
    }
  }

  lemma {:induction false} ContainsAppend(s: string, t: string, a: char, b: char)
    ensures Contains(s + t, a, b)
            <==> Contains(s, a, b) || Contains(t, a, b) || (s != "" && t != "" && s[|s| - 1] == a && t[0] == b)
  {
    hide Contains;
    if s == "" {
      assert s + t == t;
      NothingContained(s, a, b);
    } else {
      ContainsFirst(s + t, a, b);
      ContainsFirst(s, a, b);
      assert (s + t)[1..] == s[1..] + t;
      ContainsAppend(s[1..], t, a, b);
      if |s| == 1 { NothingContained(s, a, b); NothingContained(s[1..], a, b); }
    }
  }

  lemma NothingContained(s: string, a: char, b: char)
    requires |s| <= 1
    ensures !Contains(s, a, b)
  {
  }

  /** Characters that escaping neither changes nor produces. */
  predicate Inert(c: char) {
    c in "$#-{>"
  }

  lemma EscapeKeepsInert(c: char)
    ensures var e := EscapeChar(c);
            && e != ""
            && (forall x | Inert(x) :: (e[0] == x <==> c == x) && (e[|e| - 1] == x <==> c == x))
            && (forall x, y | Inert(x) && Inert(y) :: !Contains(e, x, y))
  {
    var e := EscapeChar(c);
    if |e| == 6 {
      assert forall k | 0 <= k < 6 :: !Inert(e[k]);
    }
  }

  /** Escaping neither adds nor removes a marker. */
  lemma {:induction false} EscapeKeepsMarkers(s: string, a: char, b: char)
    requires Inert(a) && Inert(b)
    ensures Contains(Escape(s), a, b) <==> Contains(s, a, b)
    ensures s != "" ==> Escape(s) != "" && (Escape(s)[0] == b <==> s[0] == b)
  {
    hide Contains, EscapeChar;
    if s == "" {
      NothingContained("", a, b);
    } else {
      EscapeKeepsMarkers(s[1..], a, b);
      EscapeKeepsInert(s[0]);
      ContainsAppend(EscapeChar(s[0]), Escape(s[1..]), a, b);
      ContainsFirst(s, a, b);
      if s[1..] != "" { assert s[1..][0] == s[1]; }
    }
  }

  lemma QuotesKeepMarkers(s: string, a: char, b: char)
    requires Inert(a) && Inert(b)
    ensures Contains(Quoted(s), a, b) <==> Contains(s, a, b)
  {
    hide Contains, Escape;
    EscapeKeepsMarkers(s, a, b);
    ContainsAppend("'", Escape(s), a, b);
    ContainsAppend("'" + Escape(s), "'", a, b);
    NothingContained("'", a, b);
  }

  lemma QuotedHasMarker(s: string)
    ensures HasMarker(Quoted(s)) <==> HasMarker(s)
  {
    hide Contains, Quoted;
    QuotesKeepMarkers(s, '$', '{');
    QuotesKeepMarkers(s, '#', '{');
    QuotesKeepMarkers(s, '-', '>');
  }

  // ---- Which printed queries hold a marker -----------------------------------------------------

  lemma InterpolatesAppend(a: seq<Word>, b: seq<Word>)
    ensures Interpolates(a + b) <==> Interpolates(a) || Interpolates(b)
  {
    hide HasMarker;
    assert forall w | w in a :: w in a + b;
    assert forall w | w in b :: w in a + b;
  }

  lemma InterpolatesOne(w: Word)
    ensures Interpolates([w]) <==> w.kind == StringLiteral && HasMarker(w.text)
  {
    hide HasMarker;
    assert w in [w];
  }

  lemma {:induction false} InterpolatesJoin(parts: seq<seq<Word>>)
    ensures Interpolates(JoinWords(parts)) <==> exists i :: 0 <= i < |parts| && Interpolates(parts[i])
    decreases |parts|
  {
    hide Interpolates;
    if parts == [] {
      NothingInterpolates();
    } else if |parts| > 1 {
      InterpolatesJoin(parts[1..]);
      InterpolatesOne(MarkWord(','));
      InterpolatesAppend([MarkWord(',')], JoinWords(parts[1..]));
      InterpolatesAppend(parts[0], [MarkWord(',')] + JoinWords(parts[1..]));
      SomePart(parts);
    }
  }

  lemma SomePart(parts: seq<seq<Word>>)
    requires parts != []
    ensures (exists i :: 0 <= i < |parts| && Interpolates(parts[i]))
            <==> Interpolates(parts[0]) || exists i :: 0 <= i < |parts[1..]| && Interpolates(parts[1..][i])
  {
    hide Interpolates;
    if i :| 0 <= i < |parts| && Interpolates(parts[i]) {
      if i > 0 { assert Interpolates(parts[1..][i - 1]); }
    }
    if i :| 0 <= i < |parts[1..]| && Interpolates(parts[1..][i]) { assert Interpolates(parts[i + 1]); }
  }

  lemma {:induction false} InterpolatesConcat(parts: seq<seq<Word>>)
    ensures Interpolates(ConcatWords(parts)) <==> exists i :: 0 <= i < |parts| && Interpolates(parts[i])
    decreases |parts|
  {
    hide Interpolates;
    if parts == [] {
      NothingInterpolates();
    } else {
      InterpolatesConcat(parts[1..]);
      InterpolatesAppend(parts[0], ConcatWords(parts[1..]));
      SomePart(parts);
    }
  }

  lemma InterpolatesEnclosed(open: char, inside: seq<Word>, close: char)
    ensures Interpolates([MarkWord(open)] + (inside + [MarkWord(close)])) <==> Interpolates(inside)
  {
    hide Interpolates;
    InterpolatesOne(MarkWord(open));
    InterpolatesOne(MarkWord(close));
    InterpolatesAppend(inside, [MarkWord(close)]);
    InterpolatesAppend([MarkWord(open)], inside + [MarkWord(close)]);
  }

  lemma ListInterpolates(parts: seq<seq<Chunk>>)
    ensures Interpolates(CodeOf(Enclosed('[', JoinChunks(COMMA_SPACE, parts), ']')))
            <==> exists i :: 0 <= i < |parts| && Interpolates(CodeOf(parts[i]))
  {
    hide Interpolates, CodeOf;
    CodeOfJoin(COMMA_SPACE, parts);
    CodeOfEnclosed('[', JoinChunks(COMMA_SPACE, parts), ']');
    InterpolatesEnclosed('[', JoinWords(Codes(parts)), ']');
    InterpolatesJoin(Codes(parts));
    assert forall i | 0 <= i < |parts| :: Codes(parts)[i] == CodeOf(parts[i]);
  }

  lemma EntryInterpolates(key: string, value: seq<Chunk>)
    ensures Interpolates(CodeOf(EntryChunks(key, value))) <==> HasMarker(key) || Interpolates(CodeOf(value))
  {
    hide Interpolates, CodeOf, HasMarker, Quoted;
    CodeOfEntry(key, value);
    QuotedHasMarker(key);
    InterpolatesOne(Word(StringLiteral, Quoted(key)));
    InterpolatesOne(MarkWord(':'));
    InterpolatesAppend([MarkWord(':')], CodeOf(value));
    InterpolatesAppend([Word(StringLiteral, Quoted(key))], [MarkWord(':')] + CodeOf(value));
  }

  lemma NoStringsNoMarkers(ws: seq<Word>)
    requires forall w | w in ws :: w.kind != StringLiteral
    ensures !Interpolates(ws)
  {
  }

  lemma {:induction false} CodeComesFromChunks(cs: seq<Chunk>)
    ensures forall w | w in CodeOf(cs) :: Code(w) in cs
  {
    if cs != [] { CodeComesFromChunks(cs[1..]); }
  }

  lemma NumbersHaveNoMarkers(v: Value)
    requires v.Integer? || v.Real? || v.Flag? || v.Null?
    ensures !Interpolates(CodeOf(ValueChunks(v)))
  {
    hide CodeOf;
    CodeComesFromChunks(ValueChunks(v));
    NoStringsNoMarkers(CodeOf(ValueChunks(v)));
  }

  lemma {:induction false} ValueInterpolates(v: Value)
    ensures Interpolates(CodeOf(ValueChunks(v))) <==> MarkedValue(v)
    decreases v
  {
    hide Interpolates, CodeOf, HasMarker, JoinChunks, Enclosed, EntryChunks, Quoted;
    match v
    case Text(s) =>
      OneCode(Str(s));
      InterpolatesOne(Word(StringLiteral, Quoted(s)));
      QuotedHasMarker(s);
    case Items(items) =>
      var parts := seq(|items|, i requires 0 <= i < |items| => ValueChunks(items[i]));
      forall i | 0 <= i < |items| ensures Interpolates(CodeOf(parts[i])) <==> MarkedValue(items[i]) {
        ValueInterpolates(items[i]);
      }
      ListInterpolates(parts);
    case Entries(entries) =>
      var parts := seq(|entries|, i requires 0 <= i < |entries| =>
                       EntryChunks(entries[i].0, ValueChunks(entries[i].1)));
      forall i | 0 <= i < |entries|
        ensures Interpolates(CodeOf(parts[i])) <==> HasMarker(entries[i].0) || MarkedValue(entries[i].1)
      {
        ValueInterpolates(entries[i].1);
        EntryInterpolates(entries[i].0, ValueChunks(entries[i].1));
      }
      ListInterpolates(parts);
    case _ => NumbersHaveNoMarkers(v);
  }

  lemma CallInterpolates(name: string, parts: seq<seq<Chunk>>)
    ensures Interpolates(CodeOf(CallChunks(name, parts)))
            <==> exists i :: 0 <= i < |parts| && Interpolates(CodeOf(parts[i]))
  {
    hide Interpolates, CodeOf;
    CodeOfCall(name, parts);
    var args := JoinWords(Codes(parts));
    InterpolatesJoin(Codes(parts));
    InterpolatesEnclosed('(', args, ')');
    InterpolatesOne(Word(Identifier, name));
    InterpolatesAppend([Word(Identifier, name)], [MarkWord('(')] + (args + [MarkWord(')')]));
    assert forall i | 0 <= i < |parts| :: Codes(parts)[i] == CodeOf(parts[i]);
  }

  lemma ConcatInterpolates(parts: seq<seq<Chunk>>)
    ensures Interpolates(CodeOf(ConcatChunks(parts)))
            <==> exists i :: 0 <= i < |parts| && Interpolates(CodeOf(parts[i]))
  {
    hide Interpolates, CodeOf;
    CodeOfConcat(parts);
    InterpolatesConcat(Codes(parts));
    assert forall i | 0 <= i < |parts| :: Codes(parts)[i] == CodeOf(parts[i]);
  }

  lemma {:induction false} ArgInterpolates(a: Arg)
    ensures Interpolates(CodeOf(ArgChunks(a))) <==> MarkedArg(a)
    decreases a
  {
    hide Interpolates, CodeOf, CallChunks, ConcatChunks;
    match a
    case Given(v) => ValueInterpolates(v);
    case Anonymous(name, args, rest) =>
      var parts := seq(|args|, i requires 0 <= i < |args| => ArgChunks(args[i]));
      forall i | 0 <= i < |args| ensures Interpolates(CodeOf(parts[i])) <==> MarkedArg(args[i]) {
        ArgInterpolates(args[i]);
      }
      var steps := seq(|rest|, i requires 0 <= i < |rest| => StepChunks(rest[i]));
      forall i | 0 <= i < |rest| ensures Interpolates(CodeOf(steps[i])) <==> MarkedStep(rest[i]) {
        StepInterpolates(rest[i]);
      }
      CallInterpolates(name, parts);
      ConcatInterpolates(steps);
      ChunksAppend(CallChunks(name, parts), ConcatChunks(steps));
      InterpolatesAppend(CodeOf(CallChunks(name, parts)), CodeOf(ConcatChunks(steps)));
    case Member(owner, name) =>
      CodeComesFromChunks(ArgChunks(a));
      NoStringsNoMarkers(CodeOf(ArgChunks(a)));
  }

  lemma {:induction false} StepInterpolates(s: Step)
    ensures Interpolates(CodeOf(StepChunks(s))) <==> MarkedStep(s)
    decreases s
  {
    hide Interpolates, CodeOf, CallChunks;
    var parts := seq(|s.args|, i requires 0 <= i < |s.args| => ArgChunks(s.args[i]));
    forall i | 0 <= i < |s.args| ensures Interpolates(CodeOf(parts[i])) <==> MarkedArg(s.args[i]) {
      ArgInterpolates(s.args[i]);
    }
    CallInterpolates(s.name, parts);
    FirstChunk(Mark('.'), CallChunks(s.name, parts));
    InterpolatesOne(MarkWord('.'));
    InterpolatesAppend([MarkWord('.')], CodeOf(CallChunks(s.name, parts)));
  }

  lemma QueryInterpolates(steps: seq<Step>)
    ensures Interpolates(CodeOf(QueryChunks(steps))) <==> MarkedSteps(steps)
  {
    hide Interpolates, CodeOf, StepChunks, ConcatChunks, MarkedStep;
    var parts := seq(|steps|, i requires 0 <= i < |steps| => StepChunks(steps[i]));
    forall i | 0 <= i < |steps| ensures Interpolates(CodeOf(parts[i])) <==> MarkedStep(steps[i]) {
      StepInterpolates(steps[i]);
    }
    ConcatInterpolates(parts);
    FirstChunk(Ident("g"), StepsChunks(steps));
    InterpolatesOne(Word(Identifier, "g"));
    InterpolatesAppend([Word(Identifier, "g")], CodeOf(StepsChunks(steps)));
  }

  // ---- Any traversal -----------------------------------------------------------------------------

  lemma {:induction false} ReadArgIsSpelled(a: Arg)
    requires ReadArg(a)
    ensures SpelledArg(a)
    decreases a
  {
    if a.Anonymous? {
      forall i | 0 <= i < |a.args| ensures SpelledArg(a.args[i]) { ReadArgIsSpelled(a.args[i]); }
      forall i | 0 <= i < |a.rest| ensures SpelledStep(a.rest[i]) { ReadStepIsSpelled(a.rest[i]); }
    }
  }

  lemma {:induction false} ReadStepIsSpelled(s: Step)
    requires ReadStep(s)
    ensures SpelledStep(s)
    decreases s
  {
    forall i | 0 <= i < |s.args| ensures SpelledArg(s.args[i]) { ReadArgIsSpelled(s.args[i]); }
  }

  lemma {:induction false} SpacedIsScannable(cs: seq<Chunk>, after: Option<char>)
    requires Spaced(cs, after)
    ensures forall w | w in CodeOf(cs) :: Scannable(w)
    decreases |cs|
  {
    if cs != [] { SpacedIsScannable(cs[1..], after); }
  }

  lemma {:induction false} CleanIsKnown(previous: Word, ws: seq<Word>, next: Option<Word>, stack: seq<string>)
    requires Clean(previous, ws, next, stack)
    ensures forall w | w in ws :: w.kind != Unknown
    decreases |ws|
  {
    if ws != [] { CleanIsKnown(ws[0], ws[1..], next, Push(stack, ws[0])); }
  }

  lemma ScannableIsMarkerFree(w: Word)
    requires Scannable(w) && w.kind != Unknown
    ensures MarkerFreeWord(w)
  {
    if w.kind == Number { NumberIsMarkerFree(w.text, false); }
  }

  lemma {:induction false} NumberIsMarkerFree(s: string, seenDot: bool)
    requires IsNumberText(s, seenDot)
    ensures MarkerFree(s)
    decreases |s|
  {
    if s != "" {
      NumberIsMarkerFree(s[1..], seenDot || s[0] == '.');
      assert forall k | 1 <= k < |s| :: s[k] == s[1..][k - 1];
    }
  }

  lemma CleanQueryIsMarkerFree(cs: seq<Chunk>)
    requires Spaced(cs, None) && CleanQuery(CodeOf(cs))
    ensures MarkerFreeWords(CodeOf(cs))
  {
    hide Spaced, Clean, Scannable, MarkerFreeWord;
    var ws := CodeOf(cs);
    SpacedIsScannable(cs, None);
    CleanIsKnown(ws[0], ws[1..], None, []);
    assert ws == [ws[0]] + ws[1..];
    forall w | w in ws ensures MarkerFreeWord(w) { ScannableIsMarkerFree(w); }
  }

  lemma QueryIsNotBlank(steps: seq<Step>)
    ensures !AllSpace(QueryText(steps))
  {
    assert QueryText(steps)[0] == 'g';
  }

  lemma PlainQueryIsSafe(steps: seq<Step>)
    requires ReadSteps(steps) && PlainSteps(steps) && steps != [] && Lower(steps[0].name) in {"v", "e"}
    ensures Classify(QueryText(steps)) == if MarkedSteps(steps) then Uncertain else Safe
  {
    hide *;
    ReadStepsAreSpelled(steps);
    PrintedQueryIsScanned(steps);
    QueryIsSpaced(steps);
    ReadQueryIsClean(steps);
    CleanQueryIsMarkerFree(QueryChunks(steps));
    MarkerFreeHasNoMarker(Lex(QueryText(steps)).normalized);
    CleanQueryIsExplained(CodeOf(QueryChunks(steps)), Lex(QueryText(steps)).normalized);
    QueryInterpolates(steps);
    QueryIsNotBlank(steps);
    ClassifyIs(QueryText(steps));
  }

  lemma OddQueryIsUncertain(steps: seq<Step>)
    requires ReadSteps(steps) && !PlainSteps(steps)
    ensures Classify(QueryText(steps)) == Uncertain
  {
    hide *;
    var lexed := Lex(QueryText(steps));
    ReadStepsAreSpelled(steps);
    PrintedQueryIsScanned(steps);
    QueryIsNotBlank(steps);
    ClassifyIs(QueryText(steps));
    HarmlessQuery(steps);
    HarmlessIsNotUnsafe(Words(lexed.tokens), lexed.valid, lexed.normalized);
    OddQuery(steps);
    OddDoesNotOnlyRead(Words(lexed.tokens), lexed.normalized);
    SafeMeansReadOnly(QueryText(steps));
  }

  /** Printer and classifier agree on reads: a traversal of read steps from V or E is never unsafe, and it
      is safe if and only if its numbers are plain and no string in it holds a marker. */
  lemma ReadQueryIsSafe(steps: seq<Step>)
    requires ReadSteps(steps) && steps != [] && Lower(steps[0].name) in {"v", "e"}
    ensures Classify(QueryText(steps)) == if PlainSteps(steps) && !MarkedSteps(steps) then Safe else Uncertain
  {
    hide *;
    if PlainSteps(steps) { PlainQueryIsSafe(steps); } else { OddQueryIsUncertain(steps); }
  }

  lemma ReadStepsAreSpelled(steps: seq<Step>)
    requires ReadSteps(steps)
    ensures SpelledSteps(steps)
  {
    forall i | 0 <= i < |steps| ensures SpelledStep(steps[i]) { ReadStepIsSpelled(steps[i]); }
  }

  lemma ClassifyIs(q: string)
    ensures !AllSpace(q) ==> Classify(q) == Verdict(Analyze(Words(Lex(q).tokens), Lex(q).valid, Lex(q).normalized))
  {
  }

  /** The classifier agrees on writes, too: a traversal with a write step is unsafe, whatever its values. */
  lemma WriteQueryIsUnsafe(steps: seq<Step>, k: nat)
    requires SpelledSteps(steps) && k < |steps| && IsWrite(Lower(steps[k].name))
    ensures Classify(QueryText(steps)) == Unsafe
  {
    hide *;
    PrintedQueryIsScanned(steps);
    WriteStepIsCode(steps, k);
    QueryIsNotBlank(steps);
    UnsafeMeansWrite(QueryText(steps));
  }

  lemma {:induction false} StepStands(steps: seq<Step>, k: nat) returns (i: nat)
    requires k < |steps|
    ensures var ws := CodeOf(StepsChunks(steps));
            i + 1 < |ws| && ws[i] == MarkWord('.') && ws[i + 1] == Word(Identifier, steps[k].name)
    decreases k
  {
    hide CodeOf, StepChunks, StepsChunks;
    FirstStepChunks(steps);
    ChunksAppend(StepChunks(steps[0]), StepsChunks(steps[1..]));
    CodeOfStep(steps[0]);
    if k == 0 {
      i := 0;
    } else {
      var j := StepStands(steps[1..], k - 1);
      i := |CodeOf(StepChunks(steps[0]))| + j;
    }
  }

  lemma FirstStepChunks(steps: seq<Step>)
    requires steps != []
    ensures StepsChunks(steps) == StepChunks(steps[0]) + StepsChunks(steps[1..])
  {
    hide StepChunks;
    var parts := seq(|steps|, j requires 0 <= j < |steps| => StepChunks(steps[j]));
    assert parts[1..] == seq(|steps| - 1, j requires 0 <= j < |steps| - 1 => StepChunks(steps[1..][j]));
  }

  lemma WriteStepIsCode(steps: seq<Step>, k: nat)
    requires k < |steps| && IsWrite(Lower(steps[k].name))
    ensures var ws := CodeOf(QueryChunks(steps)); exists i :: 0 <= i < |ws| && WritesAt(ws, i)
  {
    hide CodeOf, StepsChunks;
    var i := StepStands(steps, k);
    FirstChunk(Ident("g"), StepsChunks(steps));
    var ws := CodeOf(QueryChunks(steps));
    assert WritesAt(ws, i + 2);
  }
}
