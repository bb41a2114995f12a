/** A literal left behind after a traversal: rejected, as it should be, but not behind an empty map. */
module GremlinEmptyMaps {
  import opened Wrappers
  import opened GremlinLexer
  import opened GremlinAnalysis
  import opened GremlinChunks
  import opened GremlinSyntax
  import opened GremlinSpacing
  import opened GremlinSafety

  /** The chunks print as the text, and the scanner finds the words in it. */
  ghost predicate Ready(cs: seq<Chunk>, text: string, ws: seq<Word>) {
    Spaced(cs, None) && ChunksText(cs) == text && CodeOf(cs) == ws && MarkerFreeWords(ws)
  }

  lemma AddMark(c: char, cs: seq<Chunk>, text: string, ws: seq<Word>)
    requires Ready(cs, text, ws) && IsSafePunctuation(c)
    ensures Ready([Mark(c)] + cs, [c] + text, [Word(Punctuation, [c])] + ws)
  {
    hide Spaced, ChunksText, CodeOf, MarkerFreeWords;
    MarkThen(c, cs, None);
    FirstChunk(Mark(c), cs);
    CodeHasFirst(Word(Punctuation, [c]), ws);
  }

  lemma AddName(name: string, cs: seq<Chunk>, text: string, ws: seq<Word>)
    requires Ready(cs, text, ws) && name in {"g", "V"} && text != "" && !IsIdentifierPart(text[0])
    ensures Ready([Ident(name)] + cs, name + text, [Word(Identifier, name)] + ws)
  {
    NextChar(cs);
    hide Spaced, ChunksText, CodeOf, MarkerFreeWords, FirstChar;
    assert Scannable(Word(Identifier, name));
    SpacedFirst(Ident(name), cs, None);
    FirstChunk(Ident(name), cs);
    CodeHasFirst(Word(Identifier, name), ws);
  }

  function Left(): seq<Word> { [Word(Identifier, "true")] }

  lemma TrueIsReady()
    ensures Ready([Ident("true")], "true", Left())
  {
    NamesAreScannable();
    OneSpaced(Ident("true"), None);
    OneChunkText(Ident("true"));
    assert [Ident("true")][1..] == [];
  }

  lemma ReadyIsScanned(cs: seq<Chunk>, text: string, ws: seq<Word>)
    requires Ready(cs, text, ws)
    ensures Lex(text).valid && Words(Lex(text).tokens) == ws && !HasMarker(Lex(text).normalized)
  {
    hide Spaced, ChunksText, CodeOf, MarkerFreeWords;
    WholeText(text);
    ChunksAreScanned(text, 0, cs);
    MarkerFreeHasNoMarker(NormalizedFrom(text, 0));
  }

  /** `g.V(` before something. */
  function Opened(ws: seq<Word>): seq<Word> {
    [Word(Identifier, "g")]
    + ([Word(Punctuation, ".")] + ([Word(Identifier, "V")] + ([Word(Punctuation, "(")] + ws)))
  }

  lemma OpenedIsScanned(cs: seq<Chunk>, text: string, ws: seq<Word>)
    requires Ready(cs, text, ws)
    ensures var q := "g" + ("." + ("V" + ("(" + text)));
            Lex(q).valid && Words(Lex(q).tokens) == Opened(ws) && !HasMarker(Lex(q).normalized)
  {
    hide Ready, Lex, HasMarker;
    AddMark('(', cs, text, ws);
    var a := [Mark('(')] + cs;
    AddName("V", a, "(" + text, [Word(Punctuation, "(")] + ws);
    var b := [Ident("V")] + a;
    AddMark('.', b, "V" + ("(" + text), [Word(Identifier, "V")] + ([Word(Punctuation, "(")] + ws));
    var c := [Mark('.')] + b;
    AddName("g", c, "." + ("V" + ("(" + text)),
            [Word(Punctuation, ".")] + ([Word(Identifier, "V")] + ([Word(Punctuation, "(")] + ws)));
    ReadyIsScanned([Ident("g")] + c, "g" + ("." + ("V" + ("(" + text))), Opened(ws));
  }

  /** The traversal closed, and a literal left behind. */
  function Closed(): seq<Word> { [Word(Punctuation, ")")] + Left() }

  /** An empty map before that. */
  function EmptyMap(): seq<Word> {
    [Word(Punctuation, "[")] + ([Word(Punctuation, ":")] + ([Word(Punctuation, "]")] + Closed()))
  }

  lemma ClosedIsReady()
    ensures Ready([Mark(')')] + [Ident("true")], ")" + "true", Closed())
  {
    hide Ready;
    TrueIsReady();
    AddMark(')', [Ident("true")], "true", Left());
  }

  lemma LeftBehindIsScanned()
    ensures Lex("g.V()true").valid && Words(Lex("g.V()true").tokens) == Opened(Closed())
  {
    hide Ready, Lex;
    ClosedIsReady();
    OpenedIsScanned([Mark(')')] + [Ident("true")], ")" + "true", Closed());
    assert "g" + ("." + ("V" + ("(" + (")" + "true")))) == "g.V()true";
  }

  lemma BehindEmptyMapIsScanned()
    ensures Lex("g.V([:])true").valid && Words(Lex("g.V([:])true").tokens) == Opened(EmptyMap())
    ensures !HasMarker(Lex("g.V([:])true").normalized)
  {
    hide Ready, Lex, HasMarker;
    ClosedIsReady();
    var a := [Mark(')')] + [Ident("true")];
    AddMark(']', a, ")" + "true", Closed());
    var b := [Mark(']')] + a;
    AddMark(':', b, "]" + (")" + "true"), [Word(Punctuation, "]")] + Closed());
    var c := [Mark(':')] + b;
    AddMark('[', c, ":" + ("]" + (")" + "true")), [Word(Punctuation, ":")] + ([Word(Punctuation, "]")] + Closed()));
    OpenedIsScanned([Mark('[')] + c, "[" + (":" + ("]" + (")" + "true"))), EmptyMap());
    assert "g" + ("." + ("V" + ("(" + ("[" + (":" + ("]" + (")" + "true"))))))) == "g.V([:])true";
  }

  /** The words of `g.V([:])true`. */
  function Behind(): (ws: seq<Word>)
    ensures ws == Opened(EmptyMap())
  {
    [Word(Identifier, "g"), Word(Punctuation, "."), Word(Identifier, "V"), Word(Punctuation, "("),
     Word(Punctuation, "["), Word(Punctuation, ":"), Word(Punctuation, "]"), Word(Punctuation, ")"),
     Word(Identifier, "true")]
  }

  lemma NoWrites(s: string)
    requires s in {"true", "v", "g"}
    ensures !IsWrite(s)
  {
    assert |s| == 1 || s[0] == 't';
  }

  lemma BehindOnlyReads()
    ensures forall i | 0 <= i < 9 :: OnlyReads(Behind(), i)
  {
    assert Lower("true") == "true" && Lower("V") == "v" && Lower("g") == "g";
    NoWrites("v");
  }

  lemma NestOpen(ws: seq<Word>, i: nat, stack: seq<string>)
    requires i < |ws| && ws[i].kind == Punctuation && IsOpener(ws[i].text)
    ensures Nesting(ws, i, stack) == Nesting(ws, i + 1, stack + [ws[i].text])
  {
  }

  lemma NestClose(ws: seq<Word>, i: nat, stack: seq<string>)
    requires i < |ws| && ws[i].kind == Punctuation && IsCloser(ws[i].text)
    ensures Nesting(ws, i, stack + [Opener(ws[i].text)]) == Nesting(ws, i + 1, stack)
  {
    assert (stack + [Opener(ws[i].text)])[..|stack|] == stack;
  }

  lemma NestOther(ws: seq<Word>, i: nat, stack: seq<string>)
    requires i < |ws| && (ws[i].kind != Punctuation || ws[i].text in {".", ":", ","})
    ensures Nesting(ws, i, stack) == Nesting(ws, i + 1, stack)
  {
  }

  lemma NestEnd(ws: seq<Word>, stack: seq<string>)
    ensures Nesting(ws, |ws|, stack) == Some(stack)
  {
  }

  lemma BehindIsNested()
    ensures Nesting(Behind(), 0, []) == Some([])
  {
    hide Nesting;
    var ws := Behind();
    NestOther(ws, 0, []);
    NestOther(ws, 1, []);
    NestOther(ws, 2, []);
    NestOpen(ws, 3, []);
    NestOpen(ws, 4, [] + ["("]);
    NestOther(ws, 5, [] + ["("] + ["["]);
    NestClose(ws, 6, [] + ["("]);
    NestClose(ws, 7, []);
    NestOther(ws, 8, []);
    NestEnd(ws, []);
  }

  lemma BehindStartsFine()
    ensures FineBefore(Behind(), 5)
  {
    var ws := Behind();
    hide Push, StackBefore;
    assert FindingOf(ws, 1) == Continue;
    assert FindingOf(ws, 2) == Continue;
    assert Lower(ws[2].text) == "v";
    assert FindingOf(ws, 3) == Continue;
    assert FindingOf(ws, 4) == Continue;
  }

  lemma BehindPasses()
    ensures !InvalidFrom(Behind(), 1, [])
  {
    BehindStartsFine();
    hide FineBefore, InvalidFrom;
    AdjacencyIsCheckedUpToAnEmptyMap(Behind());
  }

  lemma BehindIsReadOnly(normalized: string)
    requires !HasMarker(normalized)
    ensures ReadOnly(Behind(), normalized)
  {
    BehindOnlyReads();
    BehindIsNested();
    hide OnlyReads, Nesting, HasMarker;
    assert Lower("V") == "v" && Lower("g") == "g";
  }

  lemma StartsWithG(q: string)
    requires q != "" && q[0] == 'g'
    ensures !AllSpace(q)
  {
  }

  /** In `g.V([:])true` the literal cannot follow the parenthesis before it, and yet the query is safe. */
  lemma LiteralBehindEmptyMapIsSafe()
    ensures Classify("g.V([:])true") == Safe
    ensures CannotFollow(Behind()[7], Behind()[8])
  {
    StartsWithG("g.V([:])true");
    assert CannotFollow(Behind()[7], Behind()[8]);
    hide OnlyReads, Nesting, FineBefore, InvalidFrom, Classify, Lex, HasMarker, ReadOnly, AllSpace, CannotFollow;
    BehindEmptyMapIsScanned();
    BehindPasses();
    BehindIsReadOnly(Lex("g.V([:])true").normalized);
    SafeMeansReadOnly("g.V([:])true");
  }

  /** The words of `g.V()true`. */
  function LeftBehind(): (ws: seq<Word>)
    ensures ws == Opened(Closed())
  {
    [Word(Identifier, "g"), Word(Punctuation, "."), Word(Identifier, "V"), Word(Punctuation, "("),
     Word(Punctuation, ")"), Word(Identifier, "true")]
  }

  lemma LeftBehindIsHarmless()
    ensures Harmless(LeftBehind())
  {
    assert Lower("true") == "true" && Lower("V") == "v" && Lower("g") == "g";
    NoWrites("true");
    NoWrites("v");
    NoWrites("g");
    forall w | w in LeftBehind() && w.kind == Identifier ensures w.text in {"true", "V", "g"} {}
  }

  lemma LeftBehindFinding()
    ensures FindingOf(LeftBehind(), 5) == Stop(true)
  {
    hide StackBefore, Push;
    assert CannotFollow(LeftBehind()[4], LeftBehind()[5]);
  }

  lemma LeftBehindHasNoMap()
    ensures MarksArePunctuation(LeftBehind()) && forall k | 2 <= k < 6 :: !EmptyMapAt(LeftBehind(), k)
  {
  }

  lemma LeftBehindFails()
    ensures InvalidFrom(LeftBehind(), 1, [])
  {
    LeftBehindFinding();
    LeftBehindHasNoMap();
    hide InvalidFrom, FindingOf, EmptyMapAt, MarksArePunctuation;
    assert !FineBefore(LeftBehind(), 6);
    AdjacencyIsCompleteWithoutEmptyMaps(LeftBehind());
  }

  /** Without the empty map the same literal is rejected. */
  lemma LiteralLeftBehindIsRejected()
    ensures Classify("g.V()true") == Uncertain
  {
    StartsWithG("g.V()true");
    ClassifyAs("g.V()true");
    hide OnlyReads, Nesting, FineBefore, InvalidFrom, Classify, Lex, HasMarker, ReadOnly, AllSpace, Verdict, Analyze,
         Harmless;
    LeftBehindIsScanned();
    LeftBehindFails();
    LeftBehindIsHarmless();
    SafeMeansReadOnly("g.V()true");
    HarmlessIsNotUnsafe(LeftBehind(), true, Lex("g.V()true").normalized);
  }

  lemma ClassifyAs(q: string)
    ensures !AllSpace(q) ==> Classify(q) == Verdict(Analyze(Words(Lex(q).tokens), Lex(q).valid, Lex(q).normalized))
  {
  }
}
