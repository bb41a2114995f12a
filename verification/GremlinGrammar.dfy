/** Token sequences that the classifier can explain: every token is fine among its neighbours and
    inside its brackets. Such a sequence is never called unsafe, and it is safe unless a string
    literal in it holds a marker. */
module GremlinGrammar {
  import opened Wrappers
  import opened GremlinLexer
  import opened GremlinAnalysis

  predicate IsReadStep(lowered: string) {
    lowered in READ_METHODS && !IsWrite(lowered)
  }

  /** An identifier that the classifier explains: a read step, an anonymous step, or a literal. */
  predicate NameFine(previous: Word, w: Word, next: Option<Word>) {
    var lowered := Lower(w.text);
    var isCall := next.Some? && next.value.text == "(";
    if previous.text == "." then isCall && IsReadStep(lowered)
    else if isCall then lowered in ANONYMOUS_READ_METHODS
    else lowered in LITERALS
  }

  predicate BracketFine(text: string, stack: seq<string>) {
    && text !in {"{", "}", ";", "+", "=", "?", "!", "*", "%", "/"}
    && (IsCloser(text) ==> stack != [] && stack[|stack| - 1] == Opener(text))
  }

  /** The word draws no doubt, whatever the strings say. */
  predicate Fine(previous: Word, w: Word, next: Option<Word>, stack: seq<string>) {
    && FindingAt(previous, w, next, stack) == Continue
    && w.kind != Unknown
    && (if w.kind == Punctuation then BracketFine(w.text, stack)
        else w.text != "." && !IsOpener(w.text) && !IsCloser(w.text))
    && (w.kind == Identifier ==> NameFine(previous, w, next))
    && (w.text == "." ==> next.Some? && next.value.kind == Identifier)
  }

  function HeadOr(ws: seq<Word>, next: Option<Word>): Option<Word> {
    if ws == [] then next else Some(ws[0])
  }

  function LastOr(ws: seq<Word>, previous: Word): Word {
    if ws == [] then previous else ws[|ws| - 1]
  }

  /** All of `ws` is fine between `previous` and `next`, with `stack` open before it. */
  predicate Clean(previous: Word, ws: seq<Word>, next: Option<Word>, stack: seq<string>)
    decreases |ws|
  {
    ws == [] ||
    (Fine(previous, ws[0], HeadOr(ws[1..], next), stack) && Clean(ws[0], ws[1..], next, Push(stack, ws[0])))
  }

  function PushAll(stack: seq<string>, ws: seq<Word>): seq<string>
    decreases |ws|
  {
    if ws == [] then stack else PushAll(Push(stack, ws[0]), ws[1..])
  }

  lemma CleanFirst(previous: Word, w: Word, ws: seq<Word>, next: Option<Word>, stack: seq<string>)
    ensures Clean(previous, [w] + ws, next, stack)
            <==> Fine(previous, w, HeadOr(ws, next), stack) && Clean(w, ws, next, Push(stack, w))
    ensures PushAll(stack, [w] + ws) == PushAll(Push(stack, w), ws)
  {
    assert ([w] + ws)[1..] == ws;
  }

  lemma CleanNothing(previous: Word, next: Option<Word>, stack: seq<string>)
    ensures Clean(previous, [], next, stack) && PushAll(stack, []) == stack
  {
  }

  lemma {:induction false} CleanAppend(
    previous: Word, a: seq<Word>, b: seq<Word>, next: Option<Word>, stack: seq<string>)
    requires Clean(previous, a, HeadOr(b, next), stack) && Clean(LastOr(a, previous), b, next, PushAll(stack, a))
    ensures Clean(previous, a + b, next, stack) && PushAll(stack, a + b) == PushAll(PushAll(stack, a), b)
    decreases |a|
  {
    hide Clean, PushAll, Fine, Push;
    if a == [] {
      CleanNothing(previous, next, stack);
      assert a + b == b;
    } else {
      var w, rest := a[0], a[1..];
      assert a == [w] + rest && a + b == [w] + (rest + b);
      CleanFirst(previous, w, rest, HeadOr(b, next), stack);
      CleanFirst(previous, w, rest + b, next, stack);
      CleanAppend(w, rest, b, next, Push(stack, w));
    }
  }

  // ---- What the analyser makes of a clean sequence ------------------------------------------

  /** Some string literal holds an interpolation or closure marker. */
  predicate Interpolates(ws: seq<Word>) {
    exists w :: w in ws && w.kind == StringLiteral && HasMarker(w.text)
  }

  predicate AllReads(methods: seq<string>) {
    forall m | m in methods :: m in READ_METHODS
  }

  lemma AnonymousStepsAreReads(lowered: string)
    ensures lowered in ANONYMOUS_READ_METHODS ==> lowered in READ_METHODS
  {
  }

  /** After a clean stretch nothing new is in doubt but the markers in its strings. */
  predicate ExplainedBy(st: State, st': State, ws: seq<Word>) {
    && st'.hasWrite == st.hasWrite
    && st'.uncertain == (st.uncertain || Interpolates(ws))
    && st'.stack == PushAll(st.stack, ws)
    && (AllReads(st.methods) ==> AllReads(st'.methods))
  }

  lemma FineWordIsExplained(st: State, previous: Word, w: Word, next: Option<Word>)
    requires Fine(previous, w, next, st.stack)
    ensures var st' := StateAfter(st, Some(previous), w, next);
            && st'.hasWrite == st.hasWrite
            && st'.uncertain == (st.uncertain || (w.kind == StringLiteral && HasMarker(w.text)))
            && st'.stack == Push(st.stack, w)
            && (AllReads(st.methods) ==> AllReads(st'.methods))
  {
    hide FindingAt, HasMarker;
    if w.kind == Identifier { AnonymousStepsAreReads(Lower(w.text)); }
  }

  lemma InterpolatesFirst(w: Word, ws: seq<Word>)
    ensures Interpolates([w] + ws) <==> (w.kind == StringLiteral && HasMarker(w.text)) || Interpolates(ws)
  {
    hide HasMarker;
    assert ([w] + ws)[0] == w;
    assert forall x | x in ws :: x in [w] + ws;
  }

  lemma {:induction false} CleanIsExplained(ws: seq<Word>, i: nat, st: State)
    requires 0 < i <= |ws| && Clean(ws[i - 1], ws[i..], None, st.stack)
    ensures ExplainedBy(st, StateFrom(ws, i, st), ws[i..])
    ensures !InvalidFrom(ws, i, st.stack)
    decreases |ws| - i
  {
    hide StateAfter, Fine, HasMarker, Push, Interpolates, FindingAt;
    if i < |ws| {
      var w, rest := ws[i], ws[i + 1..];
      assert ws[i..] == [w] + rest;
      CleanFirst(ws[i - 1], w, rest, None, st.stack);
      assert HeadOr(rest, None) == NextWord(ws, i);
      FineWordIsExplained(st, ws[i - 1], w, NextWord(ws, i));
      FineContinues(ws[i - 1], w, NextWord(ws, i), st.stack);
      CleanIsExplained(ws, i + 1, StateAfter(st, Some(ws[i - 1]), w, NextWord(ws, i)));
      InterpolatesFirst(w, rest);
    } else {
      assert !Interpolates([]) by { NothingInterpolates(); }
    }
  }

  lemma FineContinues(previous: Word, w: Word, next: Option<Word>, stack: seq<string>)
    requires Fine(previous, w, next, stack)
    ensures FindingAt(previous, w, next, stack) == Continue
  {
  }

  lemma NothingInterpolates()
    ensures !Interpolates([])
  {
  }

  lemma {:induction false} CleanHasNoOddity(previous: Word, ws: seq<Word>, next: Option<Word>, stack: seq<string>)
    requires Clean(previous, ws, next, stack)
    ensures forall i | 0 <= i < |ws| ::
              && !IsBrace(ws[i])
              && (ws[i].text == "." ==> i + 1 < |ws| || next.Some?)
              && (ws[i].text == "." && i + 1 < |ws| ==> ws[i + 1].kind == Identifier)
    decreases |ws|
  {
    if ws != [] {
      CleanHasNoOddity(ws[0], ws[1..], next, Push(stack, ws[0]));
      forall i | 0 <= i < |ws|
        ensures !IsBrace(ws[i])
        ensures ws[i].text == "." ==> i + 1 < |ws| || next.Some?
        ensures ws[i].text == "." && i + 1 < |ws| ==> ws[i + 1].kind == Identifier
      {
        if i > 0 { assert ws[1..][i - 1] == ws[i]; }
      }
    }
  }

  /** A clean query: `g`, then a traversal that starts with `.V(` or `.E(` and closes its brackets. */
  predicate CleanQuery(ws: seq<Word>) {
    && HasReadRoot(ws) && ws[0].text !in {".", "{", "}"}
    && Clean(ws[0], ws[1..], None, []) && PushAll([], ws[1..]) == []
  }

  /** A clean query is read-only, and in doubt exactly when one of its strings holds a marker. */
  lemma CleanQueryIsExplained(ws: seq<Word>, normalized: string)
    requires CleanQuery(ws) && !HasMarker(normalized)
    ensures Verdict(Analyze(ws, true, normalized)) == if Interpolates(ws) then Uncertain else Safe
  {
    hide Clean, PushAll, HasMarker, InvalidFrom, Interpolates;
    var start := State([], false, false, []);
    RootIsPassed(ws, start);
    CleanIsExplained(ws, 1, start);
    CleanHasNoOddity(ws[0], ws[1..], None, []);
    RestInterpolates(ws);
    forall i | 0 <= i < |ws| ensures !IsBrace(ws[i]) && !BadDot(ws, i) {
      if i > 0 {
        assert ws[1..][i - 1] == ws[i];
        if i + 1 < |ws| { assert ws[1..][i] == ws[i + 1]; }
      }
    }
  }

  lemma RestInterpolates(ws: seq<Word>)
    requires ws != [] && ws[0].kind == Identifier
    ensures Interpolates(ws) <==> Interpolates(ws[1..])
  {
    hide HasMarker, Interpolates;
    assert ws == [ws[0]] + ws[1..];
    InterpolatesFirst(ws[0], ws[1..]);
  }

  lemma RootIsPassed(ws: seq<Word>, st: State)
    requires HasReadRoot(ws)
    ensures StateFrom(ws, 0, st) == StateFrom(ws, 1, st)
  {
  }
}
