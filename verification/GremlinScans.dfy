/** What a scan is, without saying how it is made: a tiling of the query by blanks and tokens. */
module GremlinScans {
  import opened Wrappers
  import opened GremlinLexer
  import opened GremlinAnalysis
  import opened GremlinSafety

  // ---- Blanks and tokens ---------------------------------------------------------------------

  /** From `//` to the line break, or to the end. */
  predicate LineComment(q: string, i: nat, end: nat) {
    && i + 2 <= end <= |q| && At(q, i, '/', '/')
    && (forall k | i <= k < end :: !IsLineBreak(q[k])) && (end < |q| ==> IsLineBreak(q[end]))
  }

  /** From a slash and star to the first star and slash behind them, with no other opening in between. */
  predicate BlockComment(q: string, i: nat, end: nat) {
    && i + 4 <= end <= |q| && At(q, i, '/', '*') && At(q, end - 2, '*', '/')
    && (forall k | i + 2 <= k < end - 2 :: !At(q, k, '*', '/'))
    && (forall k | i + 2 <= k < end - 3 :: !At(q, k, '/', '*'))
  }

  predicate BlankSpan(q: string, i: nat, end: nat) {
    || (i < |q| && IsSpace(q[i]) && end == i + 1)
    || LineComment(q, i, end)
    || BlockComment(q, i, end)
  }

  /** How many backslashes stand directly in front of k, from `start` on. */
  function Backslashes(q: string, start: nat, k: nat): nat
    requires start <= k <= |q|
  {
    if k == start || q[k - 1] != '\\' then 0 else 1 + Backslashes(q, start, k - 1)
  }

  /** The character at k is escaped: an odd number of backslashes stands in front of it. */
  predicate Escaped(q: string, start: nat, k: nat)
    requires start <= k <= |q|
  {
    Backslashes(q, start, k) % 2 == 1
  }

  /** A delimiter of a literal stands at k. */
  predicate DelimiterAt(q: string, quote: char, triple: bool, k: nat) {
    if triple then ThreeQuotes(q, k, quote) else k < |q| && q[k] == quote
  }

  /** The inside of a literal, from `from` on, ends in front of the delimiter at `close`: the first
      one that is not escaped, with no bare line break in front of it unless there are three quotes. */
  predicate InsideTo(q: string, quote: char, triple: bool, start: nat, from: nat, close: nat) {
    && start <= from <= close <= |q| && DelimiterAt(q, quote, triple, close) && !Escaped(q, start, close)
    && (forall k | from <= k < close && DelimiterAt(q, quote, triple, k) :: Escaped(q, start, k))
    && (forall k | from <= k < close && !triple && IsLineBreak(q[k]) :: Escaped(q, start, k))
  }

  predicate LiteralSpan(q: string, i: nat, end: nat) {
    && i < |q| && IsQuote(q[i])
    && var d := DelimiterLength(IsTriple(q, i));
       i + 2 * d <= end <= |q| && InsideTo(q, q[i], IsTriple(q, i), i + d, i + d, end - d)
  }

  predicate IdentifierSpan(q: string, i: nat, end: nat) {
    && i < end <= |q| && IsIdentifierStart(q[i])
    && (forall k | i <= k < end :: IsIdentifierPart(q[k])) && (end < |q| ==> !IsIdentifierPart(q[end]))
  }

  /** A digit, then digits and at most one dot, as far as they go. */
  predicate NumberSpan(q: string, i: nat, end: nat) {
    && i < end <= |q| && IsDigit(q[i])
    && (forall k | i <= k < end :: IsDigit(q[k]) || q[k] == '.')
    && (forall k, l | i <= k < l < end && q[k] == '.' :: q[l] != '.')
    && (end < |q| ==> !IsDigit(q[end]) && (q[end] == '.' ==> exists k :: i <= k < end && q[k] == '.'))
  }

  /** A character that starts nothing else. */
  predicate OddSpan(q: string, i: nat, end: nat) {
    && i < |q| && end == i + 1
    && !IsSpace(q[i]) && !IsQuote(q[i]) && !IsIdentifierStart(q[i]) && !IsDigit(q[i]) && !IsSafePunctuation(q[i])
    && !At(q, i, '/', '/') && !At(q, i, '/', '*')
  }

  predicate TokenSpan(q: string, i: nat, end: nat, kind: Kind) {
    match kind
    case StringLiteral => LiteralSpan(q, i, end)
    case Identifier => IdentifierSpan(q, i, end)
    case Number => NumberSpan(q, i, end)
    case Punctuation => i < |q| && end == i + 1 && IsSafePunctuation(q[i])
    case Unknown => OddSpan(q, i, end)
  }

  // ---- The scanner finds them -------------------------------------------------------------------

  lemma {:induction false} LineEndIs(q: string, i: nat, end: nat)
    requires i <= end <= |q| && (forall k | i <= k < end :: !IsLineBreak(q[k])) && (end < |q| ==> IsLineBreak(q[end]))
    ensures LineEnd(q, i) == end
    decreases end - i
  {
    if i < end { LineEndIs(q, i + 1, end); }
  }

  lemma {:induction false} LineEndTells(q: string, i: nat)
    requires i <= |q|
    ensures forall k | i <= k < LineEnd(q, i) :: !IsLineBreak(q[k])
    ensures LineEnd(q, i) < |q| ==> IsLineBreak(q[LineEnd(q, i)])
    decreases |q| - i
  {
    if i < |q| && !IsLineBreak(q[i]) { LineEndTells(q, i + 1); }
  }

  /** The first occurrence, or none. */
  lemma {:induction false} FindTells(q: string, a: char, b: char, i: nat)
    ensures var r := Find(q, a, b, i);
            && (r.Some? ==> At(q, r.value, a, b) && forall k | i <= k < r.value :: !At(q, k, a, b))
            && (r.None? ==> forall k | i <= k :: !At(q, k, a, b))
    decreases |q| - i
  {
    if i + 2 <= |q| && !At(q, i, a, b) { FindTells(q, a, b, i + 1); }
  }

  lemma CommentExactly(q: string, i: nat, end: nat)
    requires At(q, i, '/', '*')
    ensures CommentAt(q, i) == Blank(end) <==> BlockComment(q, i, end)
  {
    FindTells(q, '*', '/', i + 2);
    var close := Find(q, '*', '/', i + 2);
    if close.Some? {
      FindTells(q[..close.value], '/', '*', i + 2);
      var nested := Find(q[..close.value], '/', '*', i + 2);
      forall k | i + 2 <= k < close.value - 1 ensures At(q[..close.value], k, '/', '*') <==> At(q, k, '/', '*') {}
      if BlockComment(q, i, end) {
        assert end - 2 == close.value;
      }
    }
  }

  lemma {:induction false} IdentifierEndTells(q: string, i: nat)
    requires i <= |q|
    ensures var end := IdentifierEnd(q, i);
            (forall k | i <= k < end :: IsIdentifierPart(q[k])) && (end < |q| ==> !IsIdentifierPart(q[end]))
    decreases |q| - i
  {
    if i < |q| && IsIdentifierPart(q[i]) { IdentifierEndTells(q, i + 1); }
  }

  lemma IdentifierExactly(q: string, i: nat, end: nat)
    requires i < |q| && IsIdentifierStart(q[i])
    ensures IdentifierEnd(q, i + 1) == end <==> IdentifierSpan(q, i, end)
  {
    IdentifierEndTells(q, i + 1);
  }

  lemma {:induction false} NumberEndTells(q: string, i: nat, seenDot: bool)
    requires i <= |q|
    ensures var end := NumberEnd(q, i, seenDot);
            && (forall k | i <= k < end :: IsDigit(q[k]) || (q[k] == '.' && !seenDot))
            && (forall k, l | i <= k < l < end && q[k] == '.' :: q[l] != '.')
            && (end < |q| ==>
                  !IsDigit(q[end]) && (q[end] == '.' ==> seenDot || exists k :: i <= k < end && q[k] == '.'))
    decreases |q| - i
  {
    if i < |q| {
      if IsDigit(q[i]) {
        NumberEndTells(q, i + 1, seenDot);
      } else if q[i] == '.' && !seenDot {
        NumberEndTells(q, i + 1, true);
        assert q[i] == '.';
      }
    }
  }

  lemma NumberExactly(q: string, i: nat, end: nat)
    requires i < |q| && IsDigit(q[i])
    ensures NumberEnd(q, i + 1, false) == end <==> NumberSpan(q, i, end)
  {
    NumberEndTells(q, i + 1, false);
  }

  // ---- Literals -------------------------------------------------------------------------------------

  lemma EscapesAlternate(q: string, start: nat, i: nat)
    requires start <= i < |q|
    ensures q[i] != '\\' ==> !Escaped(q, start, i + 1)
    ensures q[i] == '\\' ==> (Escaped(q, start, i + 1) <==> !Escaped(q, start, i))
  {
  }

  /** The scan of the inside, from a character on that is not escaped, finds the end that the number of
      backslashes determines. */
  lemma {:induction false} InsideExactly(q: string, quote: char, triple: bool, start: nat, i: nat, close: nat)
    requires IsQuote(quote) && start <= i && (i <= |q| ==> !Escaped(q, start, i))
    ensures InsideEnd(q, quote, triple, i) == Some(close + DelimiterLength(triple))
            <==> InsideTo(q, quote, triple, start, i, close)
    decreases |q| - i
  {
    if i < |q| {
      EscapesAlternate(q, start, i);
      if q[i] == '\\' {
        if i + 1 < |q| {
          EscapesAlternate(q, start, i + 1);
          InsideExactly(q, quote, triple, start, i + 2, close);
          SkipEscape(q, quote, triple, start, i, close);
        } else {
          NothingBehindEscape(q, quote, triple, start, i, close);
        }
      } else if DelimiterAt(q, quote, triple, i) {
        if InsideTo(q, quote, triple, start, i, close) { assert close == i; }
      } else if !triple && IsLineBreak(q[i]) {
      } else {
        InsideExactly(q, quote, triple, start, i + 1, close);
      }
    }
  }

  lemma SkipEscape(q: string, quote: char, triple: bool, start: nat, i: nat, close: nat)
    requires IsQuote(quote) && start <= i && i + 1 < |q| && q[i] == '\\' && !Escaped(q, start, i)
    requires Escaped(q, start, i + 1)
    ensures InsideTo(q, quote, triple, start, i, close) <==> InsideTo(q, quote, triple, start, i + 2, close)
  {
    hide Escaped;
    assert !DelimiterAt(q, quote, triple, i);
  }

  lemma NothingBehindEscape(q: string, quote: char, triple: bool, start: nat, i: nat, close: nat)
    requires IsQuote(quote) && start <= i && i + 1 == |q| && q[i] == '\\'
    ensures !InsideTo(q, quote, triple, start, i, close)
  {
    hide Escaped;
  }

  lemma LiteralExactly(q: string, i: nat, end: nat)
    requires i < |q| && IsQuote(q[i])
    ensures QuotedEnd(q, i) == Some(end) <==> LiteralSpan(q, i, end)
  {
    var triple := IsTriple(q, i);
    var d := DelimiterLength(triple);
    assert Backslashes(q, i + d, i + d) == 0;
    hide InsideEnd, Escaped, DelimiterAt, IsLineBreak;
    if end >= d { InsideExactly(q, q[i], triple, i + d, i + d, end - d); }
  }

  // ---- The tiling ---------------------------------------------------------------------------------------

  /** What the scanner takes at an offset, blank or token, is what stands there; and it breaks off
      exactly where nothing does. */
  lemma PieceExactly(q: string, i: nat)
    requires i < |q|
    ensures forall end :: PieceAt(q, i) == Blank(end) <==> BlankSpan(q, i, end)
    ensures forall end, kind :: PieceAt(q, i) == Lexeme(kind, end) <==> TokenSpan(q, i, end, kind)
  {
    forall end ensures PieceAt(q, i) == Blank(end) <==> BlankSpan(q, i, end) { BlankExactly(q, i, end); }
    forall end, kind ensures PieceAt(q, i) == Lexeme(kind, end) <==> TokenSpan(q, i, end, kind) {
      TokenExactly(q, i, end, kind);
    }
  }

  lemma BlankExactly(q: string, i: nat, end: nat)
    requires i < |q|
    ensures PieceAt(q, i) == Blank(end) <==> BlankSpan(q, i, end)
  {
    hide LineEnd, CommentAt, QuotedEnd, IdentifierEnd, NumberEnd;
    if At(q, i, '/', '/') {
      LineEndTells(q, i + 2);
      if LineComment(q, i, end) { LineEndIs(q, i + 2, end); }
    } else if At(q, i, '/', '*') {
      CommentExactly(q, i, end);
    }
  }

  lemma TokenExactly(q: string, i: nat, end: nat, kind: Kind)
    requires i < |q|
    ensures PieceAt(q, i) == Lexeme(kind, end) <==> TokenSpan(q, i, end, kind)
  {
    hide LineEnd, CommentAt, QuotedEnd, IdentifierEnd, NumberEnd, LiteralSpan, IdentifierSpan, NumberSpan;
    CharactersDiffer(q[i]);
    SpansStart(q, i, end);
    if IsQuote(q[i]) {
      LiteralExactly(q, i, end);
    } else if IsIdentifierStart(q[i]) {
      IdentifierExactly(q, i, end);
    } else if IsDigit(q[i]) {
      NumberExactly(q, i, end);
    }
  }

  lemma CharactersDiffer(c: char)
    ensures IsSpace(c) ==> !IsQuote(c) && !IsIdentifierStart(c) && !IsDigit(c) && !IsSafePunctuation(c) && c != '/'
    ensures IsQuote(c) ==> !IsIdentifierStart(c) && !IsDigit(c) && !IsSafePunctuation(c) && c != '/'
    ensures IsIdentifierStart(c) ==> !IsDigit(c) && !IsSafePunctuation(c) && c != '/'
    ensures IsDigit(c) ==> !IsSafePunctuation(c) && c != '/'
    ensures IsSafePunctuation(c) ==> c != '/'
  {
  }

  lemma SpansStart(q: string, i: nat, end: nat)
    requires i < |q|
    ensures LiteralSpan(q, i, end) ==> IsQuote(q[i])
    ensures IdentifierSpan(q, i, end) ==> IsIdentifierStart(q[i])
    ensures NumberSpan(q, i, end) ==> IsDigit(q[i])
  {
  }

  /** A stretch of the query; `kind` is None for blanks. */
  datatype Span = Span(start: nat, end: nat, kind: Option<Kind>)

  predicate IsSpan(q: string, s: Span) {
    && s.start < s.end <= |q|
    && if s.kind.None? then BlankSpan(q, s.start, s.end) else TokenSpan(q, s.start, s.end, s.kind.value)
  }

  /** The spans cover the query from i to its end, one after the other. */
  predicate Tiles(q: string, i: nat, spans: seq<Span>)
    decreases |spans|
  {
    if spans == [] then i == |q| else spans[0].start == i && IsSpan(q, spans[0]) && Tiles(q, spans[0].end, spans[1..])
  }

  predicate Within(q: string, spans: seq<Span>) {
    forall s | s in spans :: s.start <= s.end <= |q|
  }

  function TokensOf(q: string, spans: seq<Span>): seq<Token>
    requires Within(q, spans)
  {
    if spans == [] then []
    else
      var s := spans[0];
      (if s.kind.None? then [] else [Token(s.kind.value, q[s.start..s.end], s.start, s.end)]) + TokensOf(q, spans[1..])
  }

  lemma {:induction false} TilesAreSpans(q: string, i: nat, spans: seq<Span>)
    requires Tiles(q, i, spans)
    ensures forall s | s in spans :: i <= s.start < s.end <= |q| && IsSpan(q, s)
    decreases |spans|
  {
    if spans != [] {
      hide IsSpan;
      TilesAreSpans(q, spans[0].end, spans[1..]);
      SpanIsNotEmpty(q, spans[0]);
    }
  }

  lemma SpanIsNotEmpty(q: string, s: Span)
    requires IsSpan(q, s)
    ensures s.start < s.end <= |q|
  {
  }

  lemma SpanIsPiece(q: string, s: Span)
    requires IsSpan(q, s)
    ensures PieceAt(q, s.start) == if s.kind.Some? then Lexeme(s.kind.value, s.end) else Blank(s.end)
  {
    hide PieceAt, BlankSpan, TokenSpan;
    if s.kind.Some? { TokenExactly(q, s.start, s.end, s.kind.value); } else { BlankExactly(q, s.start, s.end); }
  }

  function SpansFrom(q: string, i: nat): seq<Span>
    requires i <= |q|
    decreases |q| - i
  {
    if i == |q| then []
    else
      match PieceAt(q, i)
      case Broken => []
      case Blank(end) => [Span(i, end, None)] + SpansFrom(q, end)
      case Lexeme(kind, end) => [Span(i, end, Some(kind))] + SpansFrom(q, end)
  }

  lemma {:induction false} ValidScanTiles(q: string, i: nat)
    requires i <= |q| && ValidFrom(q, i)
    ensures Tiles(q, i, SpansFrom(q, i))
    decreases |q| - i
  {
    if i < |q| {
      hide PieceAt, BlankSpan, TokenSpan;
      PieceExactly(q, i);
      ValidScanTiles(q, PieceAt(q, i).end);
    }
  }

  lemma {:induction false} TilingIsTheScan(q: string, i: nat, spans: seq<Span>)
    requires i <= |q| && Tiles(q, i, spans)
    ensures Within(q, spans) && ValidFrom(q, i) && TokensFrom(q, i) == TokensOf(q, spans)
    decreases |spans|
  {
    TilesAreSpans(q, i, spans);
    if spans != [] {
      hide PieceAt, IsSpan;
      var s := spans[0];
      SpanIsPiece(q, s);
      SpanIsNotEmpty(q, s);
      TilingIsTheScan(q, s.end, spans[1..]);
    }
  }

  /** What a scan is: it is complete if and only if blanks and tokens tile the query, which they can in
      one way only, and then its tokens are those of the tiling. */
  lemma ScanExactly(q: string)
    ensures Lex(q).valid <==> exists spans :: Tiles(q, 0, spans)
    ensures forall spans | Tiles(q, 0, spans) :: Within(q, spans) && Lex(q).tokens == TokensOf(q, spans)
  {
    if Lex(q).valid { ValidScanTiles(q, 0); }
    forall spans | Tiles(q, 0, spans)
      ensures Lex(q).valid && Within(q, spans) && Lex(q).tokens == TokensOf(q, spans)
    {
      TilingIsTheScan(q, 0, spans);
    }
  }

  // ---- The masked text -----------------------------------------------------------------------------------

  function Blanked(c: char): char {
    if c == '\n' then '\n' else ' '
  }

  /** Code, white space and the delimiters of literals stay; comments and the insides of literals are blanked. */
  function MaskedChar(q: string, s: Span, k: nat): char
    requires IsSpan(q, s) && s.start <= k < s.end
  {
    if s.kind.None? then if IsSpace(q[s.start]) then q[k] else Blanked(q[k])
    else if s.kind.value == StringLiteral then
      var d := DelimiterLength(IsTriple(q, s.start));
      if s.start + d <= k < s.end - d then Blanked(q[k]) else q[k]
    else q[k]
  }

  lemma MaskedLiteralChar(q: string, i: nat, end: nat, k: nat)
    requires i < |q| && i + 2 * DelimiterLength(IsTriple(q, i)) <= end <= |q| && i <= k < end
    ensures var d := DelimiterLength(IsTriple(q, i));
            MaskedLiteral(q, i, end)[k - i] == if i + d <= k < end - d then Blanked(q[k]) else q[k]
  {
    var d := DelimiterLength(IsTriple(q, i));
    var front, inside, back := q[i..i + d], Masked(q[i + d..end - d]), q[end - d..end];
    hide IsTriple, Masked;
    assert MaskedLiteral(q, i, end) == front + inside + back;
    if k < i + d {
      assert (front + inside + back)[k - i] == front[k - i];
    } else if k < end - d {
      assert (front + inside + back)[k - i] == inside[k - i - d];
    } else {
      assert (front + inside + back)[k - i] == back[k - (end - d)];
    }
  }

  lemma MaskedPieceIs(q: string, s: Span)
    requires IsSpan(q, s)
    ensures MaskedPiece(q, s.start)
            == if s.kind.None? then (if IsSpace(q[s.start]) then [q[s.start]] else Masked(q[s.start..s.end]))
               else if s.kind.value == StringLiteral then MaskedLiteral(q, s.start, s.end)
               else q[s.start..s.end]
  {
    SpanIsPiece(q, s);
    hide PieceAt, BlankSpan, TokenSpan, IsSpace, MaskedLiteral, Masked;
  }

  lemma MaskedPieceChar(q: string, s: Span, k: nat)
    requires IsSpan(q, s) && s.start <= k < s.end
    ensures |MaskedPiece(q, s.start)| == s.end - s.start && MaskedPiece(q, s.start)[k - s.start] == MaskedChar(q, s, k)
  {
    MaskedPieceIs(q, s);
    MaskedPieceLength(q, s);
    if s.kind.None? {
      SpaceIsOneChar(q, s.start, s.end);
    } else if s.kind.value == StringLiteral {
      LiteralIsLong(q, s.start, s.end);
      MaskedLiteralChar(q, s.start, s.end, k);
    }
    hide BlankSpan, TokenSpan, LiteralSpan, IsSpace, IsTriple, MaskedLiteral, Masked, MaskedPiece;
  }

  lemma MaskedPieceLength(q: string, s: Span)
    requires IsSpan(q, s)
    ensures |MaskedPiece(q, s.start)| == s.end - s.start
  {
    SpanIsPiece(q, s);
    hide PieceAt, BlankSpan, TokenSpan, MaskedPiece;
  }

  lemma SpaceIsOneChar(q: string, i: nat, end: nat)
    requires BlankSpan(q, i, end) && i < end <= |q|
    ensures IsSpace(q[i]) ==> end == i + 1
  {
  }

  lemma LiteralIsLong(q: string, i: nat, end: nat)
    requires LiteralSpan(q, i, end)
    ensures i < |q| && i + 2 * DelimiterLength(IsTriple(q, i)) <= end <= |q|
  {
  }

  /** The masked text, character by character, over a tiling of the query. */
  lemma {:induction false} MaskedExactly(q: string, i: nat, spans: seq<Span>, n: nat, k: nat)
    requires i <= |q| && Tiles(q, i, spans) && n < |spans| && spans[n].start <= k < spans[n].end
    ensures i <= k < |q| && IsSpan(q, spans[n]) && NormalizedFrom(q, i)[k - i] == MaskedChar(q, spans[n], k)
    decreases |spans|
  {
    hide PieceAt, IsSpan, MaskedPiece, MaskedChar;
    var s := spans[0];
    SpanIsPiece(q, s);
    SpanIsNotEmpty(q, s);
    TilesAreSpans(q, i, spans);
    if n == 0 {
      MaskedPieceChar(q, s, k);
    } else {
      assert spans[n] == spans[1..][n - 1] && spans[n] in spans[1..];
      TilesAreSpans(q, s.end, spans[1..]);
      MaskedPieceChar(q, s, s.start);
      MaskedExactly(q, s.end, spans[1..], n - 1, k);
    }
  }

  // ---- Nothing is skipped but blanks --------------------------------------------------------------------

  predicate InToken(q: string, k: nat) {
    exists t :: t in Lex(q).tokens && t.start <= k < t.end
  }

  /** The offset lies in a comment that starts outside all tokens. */
  ghost predicate InComment(q: string, k: nat) {
    exists i: nat, end: nat ::
      i <= k < end && (LineComment(q, i, end) || BlockComment(q, i, end)) && !InToken(q, i)
  }

  lemma {:induction false} PieceAround(q: string, i: nat, k: nat)
    requires i <= k < |q| && ValidFrom(q, i)
    ensures || (exists t :: t in TokensFrom(q, i) && t.start <= k < t.end)
            || IsSpace(q[k])
            || exists j: nat, end: nat :: i <= j <= k < end && (LineComment(q, j, end) || BlockComment(q, j, end))
                                && PieceAt(q, j) == Blank(end)
                                && forall t | t in TokensFrom(q, i) :: t.end <= j || end <= t.start
    decreases |q| - i
  {
    hide PieceAt, LineComment, BlockComment;
    var p := PieceAt(q, i);
    AllTokensBehind(q, p.end);
    if k < p.end {
      if p.Lexeme? {
        assert Token(p.kind, q[i..p.end], i, p.end) in TokensFrom(q, i);
      } else {
        BlankExactly(q, i, p.end);
      }
    } else {
      PieceAround(q, p.end, k);
    }
  }

  lemma {:induction false} AllTokensBehind(q: string, i: nat)
    requires i <= |q|
    ensures forall t | t in TokensFrom(q, i) :: i <= t.start < t.end <= |q|
    decreases |q| - i
  {
    if i < |q| && !PieceAt(q, i).Broken? { AllTokensBehind(q, PieceAt(q, i).end); }
  }

  /** On a complete scan every offset is in a token, or is white space, or is in a comment: a line comment
      that has no line break up to it, or a block comment that ends at its first closing. */
  lemma OffsetsAreAccountedFor(q: string, k: nat)
    requires Lex(q).valid && k < |q|
    ensures InToken(q, k) || IsSpace(q[k]) || InComment(q, k)
  {
    hide PieceAt, LineComment, BlockComment;
    PieceAround(q, 0, k);
    if !InToken(q, k) && !IsSpace(q[k]) {
      var j: nat, end: nat :| j <= k < end && (LineComment(q, j, end) || BlockComment(q, j, end))
                    && PieceAt(q, j) == Blank(end)
                    && forall t | t in TokensFrom(q, 0) :: t.end <= j || end <= t.start;
      assert !InToken(q, j);
    }
  }

  // ---- Line by line --------------------------------------------------------------------------------------

  /** The text from n on. */
  predicate Rest(q: string, n: nat, b: string) {
    n <= |q| && q[n..] == b
  }

  lemma RestChar(q: string, n: nat, b: string, i: nat, c: char)
    requires Rest(q, n, b) && i < |b|
    ensures |q| == n + |b| && q[n + i] == b[i]
    ensures ThreeQuotes(q, n + i, c) <==> ThreeQuotes(b, i, c)
  {
  }

  lemma {:induction false} InsideEndShifts(q: string, n: nat, b: string, quote: char, triple: bool, i: nat)
    requires IsQuote(quote) && Rest(q, n, b)
    ensures InsideEnd(q, quote, triple, n + i)
         == var r := InsideEnd(b, quote, triple, i); if r.None? then None else Some(n + r.value)
    decreases |b| - i
  {
    assert |q| == n + |b|;
    hide Rest, ThreeQuotes, IsLineBreak;
    if i < |b| {
      RestChar(q, n, b, i, quote);
      if b[i] == '\\' {
        if i + 1 < |b| { InsideEndShifts(q, n, b, quote, triple, i + 2); }
      } else {
        InsideEndShifts(q, n, b, quote, triple, i + 1);
      }
    }
  }

  lemma {:induction false} LineEndShifts(a: string, b: string, i: nat)
    requires i <= |b|
    ensures LineEnd(a + b, |a| + i) == |a| + LineEnd(b, i)
    decreases |b| - i
  {
    if i < |b| { LineEndShifts(a, b, i + 1); }
  }

  lemma {:induction false} FindShifts(a: string, b: string, c: char, d: char, i: nat)
    ensures Find(a + b, c, d, |a| + i)
         == var r := Find(b, c, d, i); if r.None? then None else Some(|a| + r.value)
    decreases |b| - i
  {
    if i + 2 <= |b| { FindShifts(a, b, c, d, i + 1); }
  }

  lemma {:induction false} IdentifierEndShifts(a: string, b: string, i: nat)
    requires i <= |b|
    ensures IdentifierEnd(a + b, |a| + i) == |a| + IdentifierEnd(b, i)
    decreases |b| - i
  {
    if i < |b| { IdentifierEndShifts(a, b, i + 1); }
  }

  lemma {:induction false} NumberEndShifts(a: string, b: string, i: nat, seenDot: bool)
    requires i <= |b|
    ensures NumberEnd(a + b, |a| + i, seenDot) == |a| + NumberEnd(b, i, seenDot)
    decreases |b| - i
  {
    if i < |b| { NumberEndShifts(a, b, i + 1, seenDot || b[i] == '.'); }
  }

  lemma CommentShifts(a: string, b: string, i: nat)
    requires At(b, i, '/', '*')
    ensures CommentAt(a + b, |a| + i)
         == var p := CommentAt(b, i); if p.Broken? then Broken else Blank(|a| + p.end)
  {
    FindShifts(a, b, '*', '/', i + 2);
    var close := Find(b, '*', '/', i + 2);
    if close.Some? {
      assert (a + b)[..|a| + close.value] == a + b[..close.value];
      FindShifts(a, b[..close.value], '/', '*', i + 2);
    }
  }

  function Shifted(p: Piece, n: nat): Piece {
    match p
    case Broken => Broken
    case Blank(end) => Blank(n + end)
    case Lexeme(kind, end) => Lexeme(kind, n + end)
  }

  lemma QuotedShifts(a: string, b: string, i: nat)
    requires i < |b| && IsQuote(b[i])
    ensures (a + b)[|a| + i] == b[i]
    ensures QuotedEnd(a + b, |a| + i) == var r := QuotedEnd(b, i); if r.None? then None else Some(|a| + r.value)
  {
    var q := a + b;
    assert Rest(q, |a|, b);
    hide Rest, ThreeQuotes, InsideEnd;
    RestChar(q, |a|, b, i, b[i]);
    InsideEndShifts(q, |a|, b, b[i], IsTriple(b, i), InsideStart(b, i));
  }

  lemma CharShifts(a: string, b: string, i: nat)
    requires i < |b|
    ensures (a + b)[|a| + i] == b[i]
    ensures forall c, d :: At(a + b, |a| + i, c, d) <==> At(b, i, c, d)
  {
  }

  /** What stands at an offset does not depend on what is in front of it. */
  lemma PieceShifts(a: string, b: string, i: nat)
    requires i < |b|
    ensures PieceAt(a + b, |a| + i) == Shifted(PieceAt(b, i), |a|)
  {
    hide LineEnd, QuotedEnd, IdentifierEnd, NumberEnd, CommentAt, At, IsSpace, IsQuote, IsIdentifierStart, IsDigit,
         IsSafePunctuation;
    CharShifts(a, b, i);
    if At(b, i, '/', '/') {
      CommentFits(b, i, '/');
      LineEndShifts(a, b, i + 2);
    }
    if At(b, i, '/', '*') { CommentShifts(a, b, i); }
    if IsQuote(b[i]) { QuotedShifts(a, b, i); }
    IdentifierEndShifts(a, b, i + 1);
    NumberEndShifts(a, b, i + 1, false);
  }

  lemma CommentFits(q: string, i: nat, c: char)
    requires At(q, i, '/', c)
    ensures i + 2 <= |q|
  {
  }

  function Moved(tokens: seq<Token>, n: nat): seq<Token> {
    seq(|tokens|, i requires 0 <= i < |tokens| => tokens[i].(start := n + tokens[i].start, end := n + tokens[i].end))
  }

  lemma TokensAt(q: string, i: nat)
    requires i < |q|
    ensures var p := PieceAt(q, i);
            TokensFrom(q, i)
            == (if p.Broken? then []
                else if p.Blank? then TokensFrom(q, p.end)
                else [Token(p.kind, q[i..p.end], i, p.end)] + TokensFrom(q, p.end))
    ensures ValidFrom(q, i) == (!PieceAt(q, i).Broken? && ValidFrom(q, PieceAt(q, i).end))
  {
  }

  lemma MovedFirst(t: Token, rest: seq<Token>, n: nat)
    ensures Moved([t] + rest, n) == [t.(start := n + t.start, end := n + t.end)] + Moved(rest, n)
  {
  }

  lemma NothingAtTheEnd(q: string)
    ensures TokensFrom(q, |q|) == [] && ValidFrom(q, |q|)
  {
  }

  /** One more piece, when the rest is scanned alike. */
  lemma PieceThenRest(q: string, n: nat, b: string, i: nat)
    requires i < |b| && |q| == n + |b| && PieceAt(q, n + i) == Shifted(PieceAt(b, i), n) && !PieceAt(b, i).Broken?
    requires q[n + i..n + PieceAt(b, i).end] == b[i..PieceAt(b, i).end]
    requires TokensFrom(q, n + PieceAt(b, i).end) == Moved(TokensFrom(b, PieceAt(b, i).end), n)
    requires ValidFrom(q, n + PieceAt(b, i).end) == ValidFrom(b, PieceAt(b, i).end)
    ensures TokensFrom(q, n + i) == Moved(TokensFrom(b, i), n)
    ensures ValidFrom(q, n + i) == ValidFrom(b, i)
  {
    hide PieceAt, TokensFrom, ValidFrom, Moved;
    TokensAt(q, n + i);
    TokensAt(b, i);
    var p := PieceAt(b, i);
    if p.Lexeme? { MovedFirst(Token(p.kind, b[i..p.end], i, p.end), TokensFrom(b, p.end), n); }
  }

  lemma {:induction false} ScanShifts(a: string, b: string, i: nat)
    requires i <= |b|
    ensures TokensFrom(a + b, |a| + i) == Moved(TokensFrom(b, i), |a|)
    ensures ValidFrom(a + b, |a| + i) == ValidFrom(b, i)
    decreases |b| - i
  {
    hide PieceAt, TokensFrom, ValidFrom, Moved;
    if i == |b| {
      NothingAtTheEnd(a + b);
      NothingAtTheEnd(b);
      NoneMoved(|a|);
    } else if PieceAt(b, i).Broken? {
      PieceShifts(a, b, i);
      TokensAt(a + b, |a| + i);
      TokensAt(b, i);
      NoneMoved(|a|);
    } else {
      ScanShifts(a, b, PieceAt(b, i).end);
      PieceShifts(a, b, i);
      assert (a + b)[|a| + i..|a| + PieceAt(b, i).end] == b[i..PieceAt(b, i).end];
      PieceThenRest(a + b, |a|, b, i);
    }
  }

  lemma NoneMoved(n: nat)
    ensures Moved([], n) == []
  {
  }

  /** A span of a text that ends in a line break is one of every longer text. */
  lemma SpanStays(a: string, b: string, s: Span)
    requires a != "" && IsLineBreak(a[|a| - 1]) && IsSpan(a, s)
    ensures IsSpan(a + b, s)
  {
    hide IsSpace, IsQuote, IsIdentifierStart, IsIdentifierPart, IsDigit, IsSafePunctuation, IsLineBreak;
    assert forall k | 0 <= k < |a| :: (a + b)[k] == a[k];
    if s.end == |a| {
      EndsInSpace(a, s);
    } else if s.kind == Some(StringLiteral) {
      LiteralStays(a, b, s.start, s.end);
    } else if s.kind.None? {
      BlankStays(a, b, s.start, s.end);
    }
  }

  lemma BlankStays(a: string, b: string, i: nat, end: nat)
    requires BlankSpan(a, i, end) && end < |a|
    ensures BlankSpan(a + b, i, end)
  {
    hide IsSpace, IsLineBreak;
    assert forall k | 0 <= k < |a| :: (a + b)[k] == a[k];
    forall k: nat, c, d | k + 1 < |a| ensures At(a + b, k, c, d) <==> At(a, k, c, d) {}
    if BlockComment(a, i, end) {
      hide At;
      assert BlockComment(a + b, i, end);
    }
  }

  lemma LastOfLiteral(q: string, i: nat, end: nat)
    requires LiteralSpan(q, i, end)
    ensures IsQuote(q[end - 1])
  {
    assert DelimiterAt(q, q[i], IsTriple(q, i), end - DelimiterLength(IsTriple(q, i)));
  }

  lemma EndsInSpace(a: string, s: Span)
    requires IsSpan(a, s) && s.end == |a| && IsLineBreak(a[|a| - 1])
    ensures s.kind.None? && IsSpace(a[s.start]) && s.end == s.start + 1
  {
    LineBreaksAreSpaces(a[|a| - 1]);
    CharactersDiffer(a[|a| - 1]);
    if s.kind == Some(StringLiteral) { LastOfLiteral(a, s.start, s.end); }
  }

  lemma LineBreaksAreSpaces(c: char)
    requires IsLineBreak(c)
    ensures IsSpace(c) && c != '.' && !IsIdentifierPart(c)
  {
  }

  lemma {:induction false} BackslashesStay(a: string, b: string, start: nat, k: nat)
    requires start <= k <= |a|
    ensures Backslashes(a + b, start, k) == Backslashes(a, start, k)
  {
    if k > start { BackslashesStay(a, b, start, k - 1); }
  }

  lemma LiteralStays(a: string, b: string, i: nat, end: nat)
    requires LiteralSpan(a, i, end) && end < |a|
    ensures LiteralSpan(a + b, i, end)
  {
    var triple := IsTriple(a, i);
    var d := DelimiterLength(triple);
    assert IsTriple(a + b, i) == triple && (a + b)[i] == a[i];
    InsideStays(a, b, a[i], triple, i + d, end - d);
  }

  lemma InsideStays(a: string, b: string, quote: char, triple: bool, start: nat, close: nat)
    requires InsideTo(a, quote, triple, start, start, close) && close + DelimiterLength(triple) <= |a|
    ensures InsideTo(a + b, quote, triple, start, start, close)
  {
    forall k: nat | start <= k <= close
      ensures Escaped(a + b, start, k) == Escaped(a, start, k)
      ensures DelimiterAt(a + b, quote, triple, k) == DelimiterAt(a, quote, triple, k)
      ensures k < |a| && (a + b)[k] == a[k]
    {
      BackslashesStay(a, b, start, k);
    }
    hide Escaped, DelimiterAt, IsLineBreak;
    assert forall k | start <= k < close && DelimiterAt(a + b, quote, triple, k) :: Escaped(a + b, start, k);
    assert forall k | start <= k < close && !triple && IsLineBreak((a + b)[k]) :: Escaped(a + b, start, k);
  }

  lemma TokensOfFirst(q: string, spans: seq<Span>, rest: seq<Token>)
    requires Within(q, spans) && spans != []
    ensures var s := spans[0];
            TokensOf(q, spans) + rest
            == if s.kind.None? then TokensOf(q, spans[1..]) + rest
               else [Token(s.kind.value, q[s.start..s.end], s.start, s.end)] + (TokensOf(q, spans[1..]) + rest)
  {
  }

  /** The first of the spans, in the longer text q. */
  lemma FirstStays(a: string, b: string, q: string, s: Span)
    requires a != "" && IsLineBreak(a[|a| - 1]) && q == a + b && IsSpan(a, s)
    ensures s.start < s.end <= |a| <= |q| && PieceAt(q, s.start).Lexeme? == s.kind.Some?
    ensures TokensFrom(q, s.start)
         == if s.kind.None? then TokensFrom(q, s.end)
            else [Token(s.kind.value, a[s.start..s.end], s.start, s.end)] + TokensFrom(q, s.end)
    ensures ValidFrom(q, s.start) == ValidFrom(q, s.end)
  {
    SpanIsNotEmpty(a, s);
    hide PieceAt, IsSpan, TokensFrom, ValidFrom;
    SpanStays(a, b, s);
    SpanIsPiece(q, s);
    TokensAt(q, s.start);
    assert q[s.start..s.end] == a[s.start..s.end];
  }

  lemma {:induction false} TilesStay(a: string, b: string, q: string, i: nat, spans: seq<Span>)
    requires a != "" && IsLineBreak(a[|a| - 1]) && i <= |a| && Tiles(a, i, spans) && q == a + b
    ensures Within(a, spans)
    ensures TokensFrom(q, i) == TokensOf(a, spans) + TokensFrom(q, |a|)
    ensures ValidFrom(q, i) == ValidFrom(q, |a|)
    decreases |spans|
  {
    TilesAreSpans(a, i, spans);
    if spans != [] {
      FirstStays(a, b, q, spans[0]);
      hide PieceAt, IsSpan, TokensFrom, ValidFrom, TokensOf;
      TilesStay(a, b, q, spans[0].end, spans[1..]);
      TokensOfFirst(a, spans, TokensFrom(q, |a|));
    }
  }

  /** Lines are scanned apart: behind complete lines, the rest of the query is scanned as if it stood alone. */
  lemma LinesAreScannedApart(a: string, b: string)
    requires a != "" && IsLineBreak(a[|a| - 1]) && Lex(a).valid
    ensures Words(Lex(a + b).tokens) == Words(Lex(a).tokens) + Words(Lex(b).tokens)
    ensures Lex(a + b).valid == Lex(b).valid
  {
    hide PieceAt, Tiles, TokensFrom, ValidFrom, TokensOf, Within, SpansFrom, IsLineBreak, Moved;
    LexIsTheScan(a);
    LexIsTheScan(b);
    LexIsTheScan(a + b);
    ValidScanTiles(a, 0);
    var spans := SpansFrom(a, 0);
    TilingIsTheScan(a, 0, spans);
    TilesStay(a, b, a + b, 0, spans);
    ScanShifts(a, b, 0);
    MovedWords(Lex(b).tokens, |a|);
    WordsOfBoth(Lex(a).tokens, Moved(Lex(b).tokens, |a|));
  }

  lemma LexIsTheScan(q: string)
    ensures Lex(q).tokens == TokensFrom(q, 0) && Lex(q).valid == ValidFrom(q, 0)
  {
  }

  lemma MovedWords(tokens: seq<Token>, n: nat)
    ensures Words(Moved(tokens, n)) == Words(tokens)
  {
  }

  lemma WordsOfBoth(a: seq<Token>, b: seq<Token>)
    ensures Words(a + b) == Words(a) + Words(b)
  {
  }

  /** A commented line has no tokens. */
  lemma CommentedLineIsBlank(text: string)
    requires forall k | 0 <= k < |text| :: !IsLineBreak(text[k])
    ensures var line := "//" + text + "\n"; Lex(line).valid && Lex(line).tokens == []
  {
    var line := "//" + text + "\n";
    var spans := [Span(0, |line| - 1, None), Span(|line| - 1, |line|, None)];
    assert forall k | 0 <= k < |line| - 1 :: !IsLineBreak(line[k]);
    assert LineComment(line, 0, |line| - 1);
    assert Tiles(line, |line|, []);
    assert spans[1..] == [spans[1]] && spans[1..][1..] == [];
    assert Tiles(line, |line| - 1, spans[1..]);
    assert Tiles(line, 0, spans);
    TilingIsTheScan(line, 0, spans);
    assert TokensOf(line, spans[1..]) == [];
  }

  /** So a write step on a line behind others, commented ones included, is seen, and the query is unsafe. */
  lemma WriteOnALaterLineIsUnsafe(a: string, b: string, k: nat)
    requires a != "" && IsLineBreak(a[|a| - 1]) && Lex(a).valid
    requires var ws := Words(Lex(b).tokens); k < |ws| && WritesAt(ws, k)
    ensures Classify(a + b) == Unsafe
  {
    hide Classify, Lex;
    LinesAreScannedApart(a, b);
    UnsafeMeansWrite(a + b);
    var front, ws := Words(Lex(a).tokens), Words(Lex(b).tokens);
    var all := front + ws;
    assert all[|front| + k] == ws[k];
    assert k > 0 ==> all[|front| + k - 1] == ws[k - 1];
    assert k + 1 < |ws| ==> all[|front| + k + 1] == ws[k + 1];
    assert WritesAt(all, |front| + k);
    TokensAreNotBlank(a + b, |front| + k);
  }

  lemma TokensAreNotBlank(q: string, k: nat)
    requires k < |Lex(q).tokens| && Lex(q).tokens[k].kind == Identifier
    ensures !AllSpace(q)
  {
    TokensStartInCode(q, 0);
    assert Lex(q).tokens[k] in Lex(q).tokens;
  }

  lemma {:induction false} TokensStartInCode(q: string, i: nat)
    requires i <= |q|
    ensures forall t | t in TokensFrom(q, i) :: t.start < |q| && !IsSpace(q[t.start])
    decreases |q| - i
  {
    if i < |q| && !PieceAt(q, i).Broken? { TokensStartInCode(q, PieceAt(q, i).end); }
  }
}
