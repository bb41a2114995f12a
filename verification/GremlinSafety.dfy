/** What a verdict of the classifier means, for every query there is. */
module GremlinSafety {
  import opened Wrappers
  import opened GremlinLexer
  import opened GremlinAnalysis
  import opened GremlinGrammar

  // ---- Safe means read-only ------------------------------------------------------------------

  predicate IsMember(ws: seq<Word>, i: nat)
    requires i < |ws|
  {
    i > 0 && ws[i - 1].text == "."
  }

  predicate IsCall(ws: seq<Word>, i: nat)
    requires i < |ws|
  {
    i + 1 < |ws| && ws[i + 1].text == "("
  }

  /** A word of a query that only reads: members are calls of known read steps, other calls are
      anonymous read steps, other names are literals or the source, and strings are plain. */
  predicate OnlyReads(ws: seq<Word>, i: nat)
    requires i < |ws|
  {
    && ws[i].kind != Unknown
    && (ws[i].kind == StringLiteral ==> !HasMarker(ws[i].text))
    && (ws[i].kind == Identifier ==>
          var lowered := Lower(ws[i].text);
          if IsMember(ws, i) then IsCall(ws, i) && IsReadStep(lowered)
          else if IsCall(ws, i) then lowered in ANONYMOUS_READ_METHODS
          else (i == 0 && lowered == "g") || lowered in LITERALS)
  }

  /** The open brackets after the words from i on; None when one closes another's. */
  function Nesting(ws: seq<Word>, i: nat, stack: seq<string>): Option<seq<string>>
    decreases |ws| - i
  {
    if i >= |ws| then Some(stack)
    else if ws[i].kind == Punctuation && IsCloser(ws[i].text)
         && (stack == [] || stack[|stack| - 1] != Opener(ws[i].text)) then None
    else Nesting(ws, i + 1, if ws[i].kind == Punctuation then Push(stack, ws[i]) else stack)
  }

  lemma StepOnlyReads(ws: seq<Word>, i: nat, st: State)
    requires i < |ws|
    requires var st' := StateAfter(st, PreviousWord(ws, i), ws[i], NextWord(ws, i));
             !st'.uncertain && !st'.hasWrite && AllReads(st'.methods)
    ensures !st.uncertain && !st.hasWrite && AllReads(st.methods) && OnlyReads(ws, i)
    ensures var st' := StateAfter(st, PreviousWord(ws, i), ws[i], NextWord(ws, i));
            && st'.stack == (if ws[i].kind == Punctuation then Push(st.stack, ws[i]) else st.stack)
            && (ws[i].kind == Punctuation && IsCloser(ws[i].text) ==>
                  st.stack != [] && st.stack[|st.stack| - 1] == Opener(ws[i].text))
  {
    hide HasMarker, IsWrite, Lower;
    var st' := StateAfter(st, PreviousWord(ws, i), ws[i], NextWord(ws, i));
    if ws[i].kind == Identifier && |st'.methods| > |st.methods| {
      var lowered := Lower(ws[i].text);
      assert lowered in st'.methods;
    }
    assert forall m | m in st.methods :: m in st'.methods;
  }

  lemma {:induction false} RunOnlyReads(ws: seq<Word>, i: nat, st: State)
    requires i <= |ws|
    requires var end := StateFrom(ws, i, st); !end.uncertain && !end.hasWrite && AllReads(end.methods)
    ensures !st.uncertain && !st.hasWrite && AllReads(st.methods)
    ensures forall k | i <= k < |ws| :: OnlyReads(ws, k)
    ensures Nesting(ws, i, st.stack) == Some(StateFrom(ws, i, st).stack)
    decreases |ws| - i
  {
    if i < |ws| {
      hide StateAfter, OnlyReads, Push;
      RunOnlyReads(ws, i + 1, StateAfter(st, PreviousWord(ws, i), ws[i], NextWord(ws, i)));
      StepOnlyReads(ws, i, st);
    }
  }

  lemma StepKeepsReading(ws: seq<Word>, i: nat, st: State)
    requires i < |ws| && OnlyReads(ws, i) && !st.uncertain && !st.hasWrite && AllReads(st.methods)
    requires ws[i].kind == Punctuation ==>
               && ws[i].text !in {"{", "}", ";", "+", "=", "?", "!", "*", "%", "/"}
               && (IsCloser(ws[i].text) ==> st.stack != [] && st.stack[|st.stack| - 1] == Opener(ws[i].text))
    ensures var st' := StateAfter(st, PreviousWord(ws, i), ws[i], NextWord(ws, i));
            && !st'.uncertain && !st'.hasWrite && AllReads(st'.methods)
            && st'.stack == (if ws[i].kind == Punctuation then Push(st.stack, ws[i]) else st.stack)
  {
    hide HasMarker, IsWrite, Lower;
    if ws[i].kind == Identifier { AnonymousStepsAreReads(Lower(ws[i].text)); }
  }

  /** Scanned punctuation is one of the safe marks. */
  predicate SafeMarks(ws: seq<Word>) {
    forall i | 0 <= i < |ws| && ws[i].kind == Punctuation :: |ws[i].text| == 1 && IsSafePunctuation(ws[i].text[0])
  }

  lemma {:induction false} ReadingRuns(ws: seq<Word>, i: nat, st: State)
    requires i <= |ws| && SafeMarks(ws) && !st.uncertain && !st.hasWrite && AllReads(st.methods)
    requires forall k | i <= k < |ws| :: OnlyReads(ws, k)
    requires Nesting(ws, i, st.stack).Some?
    ensures var end := StateFrom(ws, i, st);
            !end.uncertain && !end.hasWrite && AllReads(end.methods) && Nesting(ws, i, st.stack) == Some(end.stack)
    decreases |ws| - i
  {
    if i < |ws| {
      if ws[i].kind == Punctuation { MarkIsPlain(ws, i); }
      hide StateAfter, OnlyReads, Push, SafeMarks;
      StepKeepsReading(ws, i, st);
      ReadingRuns(ws, i + 1, StateAfter(st, PreviousWord(ws, i), ws[i], NextWord(ws, i)));
    }
  }

  lemma MarkIsPlain(ws: seq<Word>, i: nat)
    requires SafeMarks(ws) && i < |ws| && ws[i].kind == Punctuation
    ensures ws[i].text !in {"{", "}", ";", "+", "=", "?", "!", "*", "%", "/"}
  {
    assert IsSafePunctuation(ws[i].text[0]);
  }

  /** A query that only reads: it starts with g.V( or g.E(, closes its brackets, has no marker, brace or
      dangling dot, and every word of it only reads. */
  ghost predicate ReadOnly(ws: seq<Word>, normalized: string) {
    && HasReadRoot(ws) && !HasMarker(normalized) && Nesting(ws, 0, []) == Some([])
    && forall i | 0 <= i < |ws| :: OnlyReads(ws, i) && !BadDot(ws, i) && !IsBrace(ws[i])
  }

  lemma SafeVerdictExactly(ws: seq<Word>, valid: bool, normalized: string)
    requires SafeMarks(ws)
    ensures Verdict(Analyze(ws, valid, normalized)) == Safe
            <==> valid && !InvalidFrom(ws, 1, []) && ReadOnly(ws, normalized)
  {
    hide HasMarker, StateFrom, InvalidFrom, OnlyReads, Nesting, BadDot, SafeMarks, IsBrace;
    var start := State([], false, !valid || ws == [] || InvalidFrom(ws, 1, []), []);
    if Verdict(Analyze(ws, valid, normalized)) == Safe {
      RunOnlyReads(ws, 0, start);
    } else if valid && !InvalidFrom(ws, 1, []) && ReadOnly(ws, normalized) {
      ReadingRuns(ws, 0, start);
    }
  }

  lemma {:induction false} ScannedMarksAreSafe(q: string, i: nat)
    requires i <= |q|
    ensures SafeMarks(Words(TokensFrom(q, i)))
    decreases |q| - i
  {
    if i < |q| && !PieceAt(q, i).Broken? {
      ScannedMarksAreSafe(q, PieceAt(q, i).end);
    }
  }

  /** What safe means, for every query: it is called safe if and only if it is not blank, was scanned
      completely, passes the adjacency check, and only reads. */
  lemma SafeMeansReadOnly(q: string)
    ensures var lexed := Lex(q);
            var ws := Words(lexed.tokens);
            Classify(q) == Safe
            <==> !AllSpace(q) && lexed.valid && !InvalidFrom(ws, 1, []) && ReadOnly(ws, lexed.normalized)
  {
    hide Verdict, Analyze, InvalidFrom, ReadOnly, SafeMarks;
    var lexed := Lex(q);
    ScannedMarksAreSafe(q, 0);
    SafeVerdictExactly(Words(lexed.tokens), lexed.valid, lexed.normalized);
  }

  // ---- How far the adjacency check looks ---------------------------------------------------------

  /** The bracket stack of the check before it looks at word i; it starts at the second word. */
  function StackBefore(ws: seq<Word>, i: nat): seq<string>
    requires 1 <= i <= |ws|
  {
    if i == 1 then [] else Push(StackBefore(ws, i - 1), ws[i - 1])
  }

  function FindingOf(ws: seq<Word>, i: nat): Finding
    requires 1 <= i < |ws|
  {
    FindingAt(ws[i - 1], ws[i], NextWord(ws, i), StackBefore(ws, i))
  }

  /** Nothing is wrong with the words before i. */
  predicate FineBefore(ws: seq<Word>, i: nat)
    requires i <= |ws|
  {
    forall j | 1 <= j < i :: FindingOf(ws, j) == Continue
  }

  /** The empty map `[:]`, in the middle of which the word i stands. */
  predicate EmptyMapAt(ws: seq<Word>, i: nat)
    requires 1 <= i < |ws|
  {
    i + 1 < |ws| && ws[i - 1].text == "[" && ws[i].text == ":" && ws[i + 1].text == "]"
  }

  lemma {:induction false} CheckFrom(ws: seq<Word>, i: nat)
    requires 1 <= i <= |ws| && FineBefore(ws, i)
    ensures !InvalidFrom(ws, i, StackBefore(ws, i))
            <==> || FineBefore(ws, |ws|)
                 || exists k :: i <= k < |ws| && FineBefore(ws, k) && FindingOf(ws, k) == Stop(false)
    decreases |ws| - i
  {
    hide FindingAt, Push;
    if i < |ws| {
      if FindingOf(ws, i) == Continue {
        CheckFrom(ws, i + 1);
      } else {
        forall k | i < k <= |ws| ensures !FineBefore(ws, k) {}
      }
    }
  }

  /** Brackets and colons are scanned as punctuation. */
  predicate MarksArePunctuation(ws: seq<Word>) {
    forall i | 0 <= i < |ws| && ws[i].text in {"[", ":"} :: ws[i].kind == Punctuation
  }

  lemma EmptyMapsStop(ws: seq<Word>, i: nat)
    requires 1 <= i < |ws| && MarksArePunctuation(ws)
    ensures FindingOf(ws, i) == Stop(false) <==> i >= 2 && EmptyMapAt(ws, i)
  {
    if i >= 2 && ws[i - 1].text == "[" {
      assert ws[i - 1].kind == Punctuation;
      assert StackBefore(ws, i) == StackBefore(ws, i - 1) + ["["];
    }
  }

  /** The adjacency check passes if and only if every word is fine after the one before it, or all are
      up to the middle of an empty map: behind one, nothing is checked any more. */
  lemma AdjacencyIsCheckedUpToAnEmptyMap(ws: seq<Word>)
    requires ws != [] && MarksArePunctuation(ws)
    ensures !InvalidFrom(ws, 1, [])
            <==> FineBefore(ws, |ws|) || exists k :: 2 <= k < |ws| && FineBefore(ws, k) && EmptyMapAt(ws, k)
  {
    hide FindingOf, InvalidFrom, EmptyMapAt, MarksArePunctuation;
    CheckFrom(ws, 1);
    forall k | 1 <= k < |ws| ensures FindingOf(ws, k) == Stop(false) <==> k >= 2 && EmptyMapAt(ws, k) {
      EmptyMapsStop(ws, k);
    }
  }

  lemma {:induction false} ScannedBracketsArePunctuation(q: string, i: nat)
    requires i <= |q|
    ensures MarksArePunctuation(Words(TokensFrom(q, i)))
    decreases |q| - i
  {
    if i < |q| && !PieceAt(q, i).Broken? {
      var end := PieceAt(q, i).end;
      ScannedBracketsArePunctuation(q, end);
      assert q[i..end][0] == q[i];
    }
  }

  /** So without empty maps the check is complete. */
  lemma AdjacencyIsCompleteWithoutEmptyMaps(ws: seq<Word>)
    requires ws != [] && MarksArePunctuation(ws) && forall k | 2 <= k < |ws| :: !EmptyMapAt(ws, k)
    ensures !InvalidFrom(ws, 1, []) <==> FineBefore(ws, |ws|)
  {
    hide FindingOf, InvalidFrom, FineBefore, EmptyMapAt, MarksArePunctuation;
    AdjacencyIsCheckedUpToAnEmptyMap(ws);
  }

  // ---- Unsafe means a write ----------------------------------------------------------------------

  /** The name of a write step, as a member or called. */
  predicate WritesAt(ws: seq<Word>, i: nat)
    requires i < |ws|
  {
    ws[i].kind == Identifier && IsWrite(Lower(ws[i].text)) && (IsMember(ws, i) || IsCall(ws, i))
  }

  lemma AnonymousStepsDoNotWrite(lowered: string)
    ensures lowered in ANONYMOUS_READ_METHODS ==> !IsWrite(lowered)
  {
  }

  lemma WriteIsSeen(ws: seq<Word>, i: nat, st: State)
    requires i < |ws|
    ensures StateAfter(st, PreviousWord(ws, i), ws[i], NextWord(ws, i)).hasWrite <==> st.hasWrite || WritesAt(ws, i)
  {
    hide HasMarker, Lower, IsWrite;
    AnonymousStepsDoNotWrite(Lower(ws[i].text));
  }

  lemma {:induction false} WritesAreSeen(ws: seq<Word>, i: nat, st: State)
    ensures StateFrom(ws, i, st).hasWrite <==> st.hasWrite || exists k :: i <= k < |ws| && WritesAt(ws, k)
    decreases |ws| - i
  {
    if i < |ws| {
      hide StateAfter, WritesAt;
      WriteIsSeen(ws, i, st);
      WritesAreSeen(ws, i + 1, StateAfter(st, PreviousWord(ws, i), ws[i], NextWord(ws, i)));
    }
  }

  /** Unsafe is decided by the write steps alone, whatever else there is. */
  lemma UnsafeVerdictExactly(ws: seq<Word>, valid: bool, normalized: string)
    ensures Verdict(Analyze(ws, valid, normalized)) == Unsafe <==> exists k :: 0 <= k < |ws| && WritesAt(ws, k)
  {
    hide StateFrom, InvalidFrom, Doubtful, WritesAt;
    WritesAreSeen(ws, 0, State([], false, !valid || ws == [] || InvalidFrom(ws, 1, []), []));
  }

  /** What unsafe means, for every query: it is called unsafe if and only if it is not blank and the name of
      a write step stands in its code as a member or a call, even if the scan breaks off behind it. */
  lemma UnsafeMeansWrite(q: string)
    ensures var ws := Words(Lex(q).tokens);
            Classify(q) == Unsafe <==> !AllSpace(q) && exists k :: 0 <= k < |ws| && WritesAt(ws, k)
  {
    hide Verdict, Analyze, WritesAt;
    var lexed := Lex(q);
    UnsafeVerdictExactly(Words(lexed.tokens), lexed.valid, lexed.normalized);
  }

  /** No name in the query is one of a write step. */
  predicate Harmless(ws: seq<Word>) {
    forall w | w in ws && w.kind == Identifier :: !IsWrite(Lower(w.text))
  }

  lemma HarmlessIsNotUnsafe(ws: seq<Word>, valid: bool, normalized: string)
    requires Harmless(ws)
    ensures Verdict(Analyze(ws, valid, normalized)) != Unsafe
  {
    UnsafeVerdictExactly(ws, valid, normalized);
    hide Verdict, Analyze;
    assert forall k | 0 <= k < |ws| :: ws[k] in ws;
  }
}
