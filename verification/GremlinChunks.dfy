/** Scanning printed text: a query that is put together from well-spaced lexemes is taken apart
    into the same lexemes. */
module GremlinChunks {
  import opened Wrappers
  import opened GremlinLexer
  import opened GremlinAnalysis
  import opened GremlinPrinter

  datatype Chunk = Space | Code(word: Word)

  function ChunkText(c: Chunk): string {
    if c.Space? then " " else c.word.text
  }

  function ChunksText(cs: seq<Chunk>): string {
    if cs == [] then "" else ChunkText(cs[0]) + ChunksText(cs[1..])
  }

  function CodeOf(cs: seq<Chunk>): seq<Word> {
    if cs == [] then [] else (if cs[0].Code? then [cs[0].word] else []) + CodeOf(cs[1..])
  }

  lemma FirstChunk(c: Chunk, cs: seq<Chunk>)
    ensures ChunksText([c] + cs) == ChunkText(c) + ChunksText(cs)
    ensures CodeOf([c] + cs) == (if c.Code? then [c.word] else []) + CodeOf(cs)
  {
    assert ([c] + cs)[1..] == cs;
  }

  lemma NoChunks()
    ensures ChunksText([]) == "" && CodeOf([]) == []
  {
  }

  lemma Associate(a: string, b: string, c: string)
    ensures a + (b + c) == a + b + c
  {
  }

  lemma {:induction false} ChunksAppend(a: seq<Chunk>, b: seq<Chunk>)
    ensures ChunksText(a + b) == ChunksText(a) + ChunksText(b)
    ensures CodeOf(a + b) == CodeOf(a) + CodeOf(b)
  {
    hide ChunksText, CodeOf, ChunkText;
    if a == [] {
      assert a + b == b;
      NoChunks();
    } else {
      var c, rest := a[0], a[1..];
      assert a == [c] + rest && a + b == [c] + (rest + b);
      ChunksAppend(rest, b);
      FirstChunk(c, rest);
      FirstChunk(c, rest + b);
      Associate(ChunkText(c), ChunksText(rest), ChunksText(b));
    }
  }

  // ---- Lexemes that the scanner takes back whole ------------------------------------------

  predicate IsNumberText(s: string, seenDot: bool) {
    s == "" ||
    (if IsDigit(s[0]) then IsNumberText(s[1..], seenDot) else s[0] == '.' && !seenDot && IsNumberText(s[1..], true))
  }

  predicate IsIdentifierText(s: string) {
    s != "" && IsIdentifierStart(s[0]) && forall k | 0 <= k < |s| :: IsIdentifierPart(s[k])
  }

  /** Any other character: no blank, quote, comment or code. */
  predicate IsStray(c: char) {
    && !IsSpace(c) && c != '/' && !IsQuote(c) && !IsIdentifierPart(c) && !IsSafePunctuation(c)
  }

  ghost predicate Scannable(w: Word) {
    match w.kind
    case Identifier => IsIdentifierText(w.text)
    case Number => w.text != "" && IsDigit(w.text[0]) && IsNumberText(w.text, false)
    case StringLiteral => exists s :: w.text == Quoted(s)
    case Punctuation => |w.text| == 1 && IsSafePunctuation(w.text[0])
    case Unknown => |w.text| == 1 && IsStray(w.text[0])
  }

  /** The character c after w does not run into it. */
  predicate MayFollow(w: Word, c: char) {
    match w.kind
    case Identifier => !IsIdentifierPart(c)
    case Number => !IsDigit(c) && c != '.'
    case StringLiteral => c != '\''
    case _ => true
  }

  function FirstChar(cs: seq<Chunk>, after: Option<char>): Option<char> {
    if cs == [] then after
    else if ChunkText(cs[0]) == "" then None
    else Some(ChunkText(cs[0])[0])
  }

  ghost predicate ChunkFits(chunk: Chunk, next: Option<char>) {
    chunk.Code? ==> Scannable(chunk.word) && (next.Some? ==> MayFollow(chunk.word, next.value))
  }

  /** Every lexeme is whole, and what follows keeps off it; `after` follows the last one. */
  ghost predicate Spaced(cs: seq<Chunk>, after: Option<char>) {
    cs == [] || (ChunkFits(cs[0], FirstChar(cs[1..], after)) && Spaced(cs[1..], after))
  }

  lemma ScannableIsNotEmpty(w: Word)
    requires Scannable(w)
    ensures w.text != ""
  {
  }

  lemma SpacedFirst(c: Chunk, cs: seq<Chunk>, after: Option<char>)
    ensures Spaced([c] + cs, after) <==> ChunkFits(c, FirstChar(cs, after)) && Spaced(cs, after)
    ensures FirstChar([c] + cs, after) == if ChunkText(c) == "" then None else Some(ChunkText(c)[0])
  {
    assert ([c] + cs)[1..] == cs;
  }

  lemma FirstOfNothing(after: Option<char>)
    ensures FirstChar([], after) == after
  {
  }

  lemma {:induction false} SpacedAppend(a: seq<Chunk>, b: seq<Chunk>, after: Option<char>)
    requires Spaced(a, FirstChar(b, after)) && Spaced(b, after)
    ensures Spaced(a + b, after)
    ensures FirstChar(a + b, after) == FirstChar(a, FirstChar(b, after))
  {
    hide Spaced, FirstChar, ChunkFits, ChunkText;
    if a == [] {
      assert a + b == b;
      FirstOfNothing(FirstChar(b, after));
    } else {
      var c, rest := a[0], a[1..];
      assert a == [c] + rest && a + b == [c] + (rest + b);
      SpacedFirst(c, rest, FirstChar(b, after));
      SpacedAppend(rest, b, after);
      SpacedFirst(c, rest + b, after);
    }
  }

  // ---- Scanning one of them ------------------------------------------------------------------

  lemma {:induction false} IdentifierScanned(q: string, i: nat, j: nat)
    requires i <= j <= |q| && (forall k | i <= k < j :: IsIdentifierPart(q[k]))
    requires j < |q| ==> !IsIdentifierPart(q[j])
    ensures IdentifierEnd(q, i) == j
    decreases j - i
  {
    if i < j { IdentifierScanned(q, i + 1, j); }
  }

  lemma {:induction false} NumberScanned(q: string, i: nat, s: string, seenDot: bool)
    requires StandsAt(q, i, s) && IsNumberText(s, seenDot)
    requires i + |s| < |q| ==> !IsDigit(q[i + |s|]) && q[i + |s|] != '.'
    ensures NumberEnd(q, i, seenDot) == i + |s|
    decreases |s|
  {
    if s != "" {
      StandsChar(q, i, s, 0);
      assert s == [s[0]] + s[1..];
      StandsSplit(q, i, [s[0]], s[1..]);
      NumberScanned(q, i + 1, s[1..], seenDot || s[0] == '.');
    }
  }

  lemma IdentifierPiece(q: string, i: nat, w: Word)
    requires w.kind == Identifier && Scannable(w) && StandsAt(q, i, w.text)
    requires i + |w.text| < |q| ==> MayFollow(w, q[i + |w.text|])
    ensures i < |q| && PieceAt(q, i) == Lexeme(Identifier, i + |w.text|)
  {
    forall k | 0 <= k < |w.text| ensures q[i + k] == w.text[k] { StandsChar(q, i, w.text, k); }
    IdentifierScanned(q, i + 1, i + |w.text|);
  }

  lemma NumberPiece(q: string, i: nat, w: Word)
    requires w.kind == Number && Scannable(w) && StandsAt(q, i, w.text)
    requires i + |w.text| < |q| ==> MayFollow(w, q[i + |w.text|])
    ensures i < |q| && PieceAt(q, i) == Lexeme(Number, i + |w.text|)
  {
    StandsChar(q, i, w.text, 0);
    assert w.text == [w.text[0]] + w.text[1..];
    StandsSplit(q, i, [w.text[0]], w.text[1..]);
    NumberScanned(q, i + 1, w.text[1..], false);
  }

  /** A whole lexeme with something harmless after it is scanned as itself. */
  lemma WordIsScanned(q: string, i: nat, w: Word)
    requires Scannable(w) && StandsAt(q, i, w.text)
    requires i + |w.text| < |q| ==> MayFollow(w, q[i + |w.text|])
    ensures i < |q| && PieceAt(q, i) == Lexeme(w.kind, i + |w.text|)
  {
    match w.kind
    case Identifier => IdentifierPiece(q, i, w);
    case Number => NumberPiece(q, i, w);
    case StringLiteral => LiteralPiece(q, i, w);
    case Punctuation => StandsChar(q, i, w.text, 0);
    case Unknown => StandsChar(q, i, w.text, 0);
  }

  lemma LiteralPiece(q: string, i: nat, w: Word)
    requires w.kind == StringLiteral && Scannable(w) && StandsAt(q, i, w.text)
    requires i + |w.text| < |q| ==> MayFollow(w, q[i + |w.text|])
    ensures i < |q| && PieceAt(q, i) == Lexeme(StringLiteral, i + |w.text|)
  {
    hide PieceAt;
    var s :| w.text == Quoted(s);
    LiteralRoundTrip(q, i, s);
  }

  // ---- Scanning the whole text -------------------------------------------------------------

  /** Nothing in the text can be part of an interpolation or closure marker, except after a quote. */
  predicate MarkerFree(s: string) {
    forall k | 0 <= k < |s| :: s[k] != '{' && s[k] != '>'
  }

  lemma MarkerFreeHasNoMarker(s: string)
    requires MarkerFree(s)
    ensures !HasMarker(s)
  {
  }

  predicate MarkerFreeWord(w: Word) {
    w.kind == StringLiteral || MarkerFree(w.text)
  }

  predicate MarkerFreeWords(ws: seq<Word>) {
    forall w | w in ws :: MarkerFreeWord(w)
  }

  lemma LiteralIsHarmless(q: string, i: nat)
    requires i < |q| && q[i] == '\'' && PieceAt(q, i).Lexeme?
    ensures MarkerFree(MaskedPiece(q, i))
  {
    var end := PieceAt(q, i).end;
    var d := DelimiterLength(IsTriple(q, i));
    assert MarkerFree(q[i..i + d]);
    assert MarkerFree(q[end - d..end]);
    assert MarkerFree(Masked(q[i + d..end - d]));
    MarkerFreeAppend(q[i..i + d], Masked(q[i + d..end - d]));
    MarkerFreeAppend(q[i..i + d] + Masked(q[i + d..end - d]), q[end - d..end]);
  }

  lemma MarkerFreeAppend(a: string, b: string)
    requires MarkerFree(a) && MarkerFree(b)
    ensures MarkerFree(a + b)
  {
  }

  lemma MaskedWordIsHarmless(q: string, i: nat, w: Word)
    requires Scannable(w) && MarkerFreeWord(w) && StandsAt(q, i, w.text)
    requires i < |q| && PieceAt(q, i) == Lexeme(w.kind, i + |w.text|)
    ensures MarkerFree(MaskedPiece(q, i))
  {
    if w.kind == StringLiteral {
      var s :| w.text == Quoted(s);
      QuotedStands(q, i, s);
      hide PieceAt;
      LiteralIsHarmless(q, i);
    }
  }

  predicate EndsWith(q: string, i: nat, s: string) {
    i <= |q| && q[i..] == s
  }

  lemma EndsWithSplit(q: string, i: nat, a: string, b: string)
    requires EndsWith(q, i, a + b)
    ensures StandsAt(q, i, a) && EndsWith(q, i + |a|, b)
    ensures b != "" ==> i + |a| < |q| && q[i + |a|] == b[0]
    ensures b == "" ==> i + |a| == |q|
  {
    assert q[i..i + |a|] == q[i..][..|a|] == a;
    assert q[i + |a|..] == q[i..][|a|..] == b;
  }

  /** The first chunk is scanned as one piece, up to where the rest of the text starts. */
  ghost predicate ScannedAs(q: string, i: nat, chunk: Chunk, rest: seq<Chunk>) {
    var end := i + |ChunkText(chunk)|;
    && i < end <= |q| && q[i..end] == ChunkText(chunk) && EndsWith(q, end, ChunksText(rest))
    && PieceAt(q, i) == if chunk.Space? then Blank(end) else Lexeme(chunk.word.kind, end)
  }

  lemma SpaceIsScanned(q: string, i: nat)
    requires StandsAt(q, i, " ")
    ensures i < |q| && PieceAt(q, i) == Blank(i + 1) && MarkerFree(MaskedPiece(q, i))
  {
    StandsChar(q, i, " ", 0);
  }

  lemma CodeIsScanned(q: string, i: nat, w: Word)
    requires Scannable(w) && StandsAt(q, i, w.text)
    requires i + |w.text| < |q| ==> MayFollow(w, q[i + |w.text|])
    ensures i < |q| && PieceAt(q, i) == Lexeme(w.kind, i + |w.text|)
    ensures MarkerFreeWord(w) ==> MarkerFree(MaskedPiece(q, i))
  {
    hide PieceAt, MaskedPiece, Scannable, StandsAt;
    WordIsScanned(q, i, w);
    if MarkerFreeWord(w) { MaskedWordIsHarmless(q, i, w); }
  }

  lemma NextChar(cs: seq<Chunk>)
    requires Spaced(cs, None) && ChunksText(cs) != ""
    ensures FirstChar(cs, None) == Some(ChunksText(cs)[0])
  {
    if cs != [] && cs[0].Code? { ScannableIsNotEmpty(cs[0].word); }
  }

  lemma FirstChunkIsScanned(q: string, i: nat, c: Chunk, rest: seq<Chunk>)
    requires EndsWith(q, i, ChunkText(c) + ChunksText(rest))
    requires Spaced(rest, None) && ChunkFits(c, FirstChar(rest, None))
    ensures i < |q| && ScannedAs(q, i, c, rest)
    ensures (c.Code? ==> MarkerFreeWord(c.word)) ==> MarkerFree(MaskedPiece(q, i))
  {
    hide PieceAt, MaskedPiece, ChunksText, EndsWith, Scannable, FirstChar, Spaced, MarkerFree;
    EndsWithSplit(q, i, ChunkText(c), ChunksText(rest));
    if c.Code? {
      if ChunksText(rest) != "" { NextChar(rest); }
      ScannableIsNotEmpty(c.word);
      CodeIsScanned(q, i, c.word);
    } else {
      SpaceIsScanned(q, i);
    }
  }

  /** The scan finds exactly the code of the text, completely, and shows no marker outside of it. */
  lemma {:induction false} ChunksAreScanned(q: string, i: nat, cs: seq<Chunk>)
    requires EndsWith(q, i, ChunksText(cs)) && Spaced(cs, None)
    ensures i <= |q| && Words(TokensFrom(q, i)) == CodeOf(cs) && ValidFrom(q, i)
    ensures MarkerFreeWords(CodeOf(cs)) ==> MarkerFree(NormalizedFrom(q, i))
    decreases |cs|
  {
    hide *;
    if cs == [] {
      NothingIsScanned(q, i);
    } else {
      var c, rest := cs[0], cs[1..];
      assert cs == [c] + rest;
      FirstChunk(c, rest);
      SpacedFirst(c, rest, None);
      FirstChunkIsScanned(q, i, c, rest);
      ScannedEnd(q, i, c, rest);
      ChunksAreScanned(q, i + |ChunkText(c)|, rest);
      ScanStep(q, i, c, rest);
    }
  }

  lemma NothingIsScanned(q: string, i: nat)
    requires EndsWith(q, i, ChunksText([]))
    ensures i <= |q| && Words(TokensFrom(q, i)) == CodeOf([]) && ValidFrom(q, i) && MarkerFree(NormalizedFrom(q, i))
  {
    assert i == |q|;
  }

  lemma ScannedEnd(q: string, i: nat, c: Chunk, rest: seq<Chunk>)
    requires ScannedAs(q, i, c, rest)
    ensures i + |ChunkText(c)| <= |q| && EndsWith(q, i + |ChunkText(c)|, ChunksText(rest))
  {
  }

  lemma ScanStep(q: string, i: nat, c: Chunk, rest: seq<Chunk>)
    requires i < |q| && ScannedAs(q, i, c, rest)
    requires (c.Code? ==> MarkerFreeWord(c.word)) ==> MarkerFree(MaskedPiece(q, i))
    requires Words(TokensFrom(q, i + |ChunkText(c)|)) == CodeOf(rest) && ValidFrom(q, i + |ChunkText(c)|)
    requires MarkerFreeWords(CodeOf(rest)) ==> MarkerFree(NormalizedFrom(q, i + |ChunkText(c)|))
    ensures Words(TokensFrom(q, i)) == CodeOf([c] + rest) && ValidFrom(q, i)
    ensures MarkerFreeWords(CodeOf([c] + rest)) ==> MarkerFree(NormalizedFrom(q, i))
  {
    hide PieceAt, MaskedPiece, EndsWith, MarkerFree, CodeOf, TokensFrom, ValidFrom, NormalizedFrom, MarkerFreeWords,
         Words;
    FirstChunk(c, rest);
    PieceStep(q, i);
    var end := i + |ChunkText(c)|;
    if c.Code? {
      FirstToken(q, i, c.word, TokensFrom(q, end));
      CodeHasFirst(c.word, CodeOf(rest));
    } else {
      assert [] + CodeOf(rest) == CodeOf(rest);
    }
    if MarkerFreeWords(CodeOf([c] + rest)) {
      MarkerFreeAppend(MaskedPiece(q, i), NormalizedFrom(q, end));
    }
  }

  /** One round of the scan. */
  lemma PieceStep(q: string, i: nat)
    requires i < |q| && !PieceAt(q, i).Broken?
    ensures var p := PieceAt(q, i);
            && TokensFrom(q, i)
               == (if p.Blank? then [] else [Token(p.kind, q[i..p.end], i, p.end)]) + TokensFrom(q, p.end)
            && ValidFrom(q, i) == ValidFrom(q, p.end)
            && NormalizedFrom(q, i) == MaskedPiece(q, i) + NormalizedFrom(q, p.end)
    ensures PieceAt(q, i).Blank? ==> TokensFrom(q, i) == TokensFrom(q, PieceAt(q, i).end)
  {
    hide PieceAt, MaskedPiece;
  }

  lemma FirstToken(q: string, i: nat, w: Word, rest: seq<Token>)
    requires i + |w.text| <= |q| && q[i..i + |w.text|] == w.text
    ensures Words([Token(w.kind, q[i..i + |w.text|], i, i + |w.text|)] + rest) == [w] + Words(rest)
  {
  }

  lemma CodeHasFirst(w: Word, ws: seq<Word>)
    ensures MarkerFreeWords([w] + ws) <==> MarkerFreeWord(w) && MarkerFreeWords(ws)
  {
    assert ([w] + ws)[0] == w;
    assert forall x | x in ws :: x in [w] + ws;
  }
}
