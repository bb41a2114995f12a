/** Masking is stable: scanning the normalized query again finds the same tokens at the same
    offsets, so that the cost check sees the real steps. The one exception is exact. */
module GremlinMasking {
  import opened Wrappers
  import opened GremlinLexer

  /** The token with its literal contents blanked out. */
  function Veil(t: Token): Token {
    if t.kind == StringLiteral && t.value != "" && |t.value| >= 2 * DelimiterLength(IsTriple(t.value, 0)) then
      t.(value := MaskedLiteral(t.value, 0, |t.value|))
    else t
  }

  function Veiled(tokens: seq<Token>): (r: seq<Token>)
    ensures |r| == |tokens| && forall i | 0 <= i < |tokens| :: r[i] == Veil(tokens[i])
  {
    seq(|tokens|, i requires 0 <= i < |tokens| => Veil(tokens[i]))
  }

  /** A one-line literal that continues on the next line after a backslash. */
  predicate ContinuesLine(t: Token) {
    && t.kind == StringLiteral && t.value != "" && !IsTriple(t.value, 0)
    && exists k :: 0 <= k < |t.value| - 1 && t.value[k] == '\\' && t.value[k + 1] == '\n'
  }

  predicate NoneContinues(tokens: seq<Token>) {
    forall t | t in tokens :: !ContinuesLine(t)
  }

  predicate IsBlank(c: char) {
    c == ' ' || c == '\n'
  }

  // ---- Blanks ------------------------------------------------------------------------

  lemma BlankStep(n: string, i: nat)
    requires i < |n| && IsSpace(n[i])
    ensures TokensFrom(n, i) == TokensFrom(n, i + 1)
    ensures NormalizedFrom(n, i) == [n[i]] + NormalizedFrom(n, i + 1)
  {
    assert PieceAt(n, i) == Blank(i + 1);
  }

  /** A stretch of blanks yields no tokens, and masks to itself. */
  lemma {:induction false} BlankRun(n: string, i: nat, j: nat)
    requires i <= j <= |n| && forall k | i <= k < j :: IsSpace(n[k])
    ensures TokensFrom(n, i) == TokensFrom(n, j)
    ensures NormalizedFrom(n, i) == n[i..j] + NormalizedFrom(n, j)
    decreases j - i
  {
    hide TokensFrom, NormalizedFrom, IsSpace;
    if i < j {
      BlankStep(n, i);
      BlankRun(n, i + 1, j);
      assert n[i..j] == [n[i]] + n[i + 1..j];
    } else {
      assert n[i..j] == "";
    }
  }

  lemma PieceChar(q: string, i: nat, k: nat)
    requires i < |q| && i <= k < i + |MaskedPiece(q, i)|
    ensures MaskedPiece(q, i)[k - i] == q[k] || IsBlank(MaskedPiece(q, i)[k - i])
  {
    hide PieceAt, MaskedLiteral;
    if PieceAt(q, i).Lexeme? && PieceAt(q, i).kind == StringLiteral {
      LiteralPiece(q, i);
      LiteralChar(q, i, PieceAt(q, i).end, k);
    }
  }

  lemma LiteralPiece(q: string, i: nat)
    requires i < |q| && PieceAt(q, i).Lexeme? && PieceAt(q, i).kind == StringLiteral
    ensures i + 2 * DelimiterLength(IsTriple(q, i)) <= PieceAt(q, i).end <= |q|
  {
  }

  lemma LiteralChar(q: string, i: nat, end: nat, k: nat)
    requires i < |q| && i + 2 * DelimiterLength(IsTriple(q, i)) <= end <= |q| && i <= k < end
    ensures MaskedLiteral(q, i, end)[k - i] == q[k] || IsBlank(MaskedLiteral(q, i, end)[k - i])
  {
    hide IsTriple;
    var d := DelimiterLength(IsTriple(q, i));
    var middle := Masked(q[i + d..end - d]);
    if i + d <= k < end - d {
      assert MaskedLiteral(q, i, end)[k - i] == middle[k - i - d];
    }
  }

  /** What normalisation leaves of a character. */
  lemma {:induction false} NormalizedChar(q: string, i: nat, k: nat)
    requires i <= k < |q|
    ensures NormalizedFrom(q, i)[k - i] == q[k] || IsBlank(NormalizedFrom(q, i)[k - i])
    decreases |q| - i
  {
    hide PieceAt, MaskedPiece;
    var p := PieceAt(q, i);
    if !p.Broken? && k >= p.end {
      NormalizedChar(q, p.end, k);
    } else {
      PieceChar(q, i, k);
    }
  }

  lemma NormalizedTail(q: string, n: string, i: nat)
    requires |n| == |q| && i < |q| && n[i..] == NormalizedFrom(q, i)
    ensures var p := PieceAt(q, i);
            if p.Broken? then n[i..] == Masked(q[i..])
            else n[i..p.end] == MaskedPiece(q, i) && n[p.end..] == NormalizedFrom(q, p.end)
  {
    hide PieceAt, MaskedPiece;
    var p := PieceAt(q, i);
    var head := MaskedPiece(q, i);
    if p.Broken? {
      assert head + "" == head;
      assert PieceAt(q, i) == Broken ==> head == Masked(q[i..]) by { BrokenPiece(q, i); }
    } else {
      var tail := NormalizedFrom(q, p.end);
      assert n[i..] == head + tail;
      assert n[i..p.end] == n[i..][..p.end - i] && n[p.end..] == n[i..][p.end - i..];
    }
  }

  lemma BrokenPiece(q: string, i: nat)
    requires i < |q|
    ensures PieceAt(q, i) == Broken ==> MaskedPiece(q, i) == Masked(q[i..])
  {
  }

  // ---- Code --------------------------------------------------------------------------

  lemma {:induction false} SameIdentifierEnd(q: string, n: string, i: nat)
    requires |n| == |q| && i <= |q|
    requires forall k | i <= k < IdentifierEnd(q, i) :: n[k] == q[k]
    requires IdentifierEnd(q, i) < |q| ==> !IsIdentifierPart(n[IdentifierEnd(q, i)])
    ensures IdentifierEnd(n, i) == IdentifierEnd(q, i)
    decreases |q| - i
  {
    if i < |q| && IsIdentifierPart(q[i]) { SameIdentifierEnd(q, n, i + 1); }
  }

  lemma {:induction false} IdentifierStops(q: string, i: nat)
    requires i <= |q|
    ensures var e := IdentifierEnd(q, i); e < |q| ==> !IsIdentifierPart(q[e])
    decreases |q| - i
  {
    if i < |q| && IsIdentifierPart(q[i]) { IdentifierStops(q, i + 1); }
  }

  lemma {:induction false} SameNumberEnd(q: string, n: string, i: nat, seenDot: bool)
    requires |n| == |q| && i <= |q|
    requires var e := NumberEnd(q, i, seenDot);
             && (forall k | i <= k < e :: n[k] == q[k])
             && (e < |q| ==> n[e] == q[e] || IsBlank(n[e]))
    ensures NumberEnd(n, i, seenDot) == NumberEnd(q, i, seenDot)
    decreases |q| - i
  {
    if i < |q| {
      if IsDigit(q[i]) { SameNumberEnd(q, n, i + 1, seenDot); }
      else if q[i] == '.' && !seenDot { SameNumberEnd(q, n, i + 1, true); }
    }
  }

  /** Code is scanned as before, whatever was blanked out around it. */
  lemma CodeIsRescanned(q: string, n: string, i: nat)
    requires |n| == |q| && i < |q| && PieceAt(q, i).Lexeme? && !IsQuote(q[i])
    requires n[i..PieceAt(q, i).end] == q[i..PieceAt(q, i).end]
    requires forall k | i <= k < |q| :: n[k] == q[k] || IsBlank(n[k])
    ensures PieceAt(n, i) == PieceAt(q, i)
  {
    var e := PieceAt(q, i).end;
    forall k | i <= k < e ensures n[k] == q[k] {
      assert n[i..e][k - i] == q[i..e][k - i];
    }
    if IsIdentifierStart(q[i]) {
      IdentifierStops(q, i + 1);
      SameIdentifierEnd(q, n, i + 1);
    } else if IsDigit(q[i]) {
      SameNumberEnd(q, n, i + 1, false);
    }
  }

  // ---- Literals ------------------------------------------------------------------------

  /** A blanked-out literal ends where it did, unless it holds a line feed and must not. */
  lemma {:induction false} BlankInside(n: string, quote: char, triple: bool, k: nat, close: nat)
    requires IsQuote(quote) && k <= close && close + DelimiterLength(triple) <= |n|
    requires forall m | k <= m < close :: IsBlank(n[m])
    requires forall m | close <= m < close + DelimiterLength(triple) :: n[m] == quote
    ensures InsideEnd(n, quote, triple, k)
         == if triple || forall m | k <= m < close :: n[m] != '\n' then Some(close + DelimiterLength(triple)) else None
    decreases close - k
  {
    if k < close { BlankInside(n, quote, triple, k + 1, close); }
  }

  /** Inside a complete one-line literal, a line feed follows a backslash. */
  lemma {:induction false} LineFeedIsEscaped(q: string, quote: char, i: nat, k: nat)
    requires IsQuote(quote) && InsideEnd(q, quote, false, i).Some?
    requires i <= k < InsideEnd(q, quote, false, i).value && q[k] == '\n'
    ensures i < k && q[k - 1] == '\\'
    decreases |q| - i
  {
    if q[i] == '\\' {
      if k >= i + 2 { LineFeedIsEscaped(q, quote, i + 2, k); }
    } else if q[i] != quote {
      if k > i { LineFeedIsEscaped(q, quote, i + 1, k); }
    }
  }

  /** The text of a literal shows whether it is a triple one. */
  lemma LiteralShape(q: string, i: nat)
    requires i < |q| && IsQuote(q[i]) && QuotedEnd(q, i).Some?
    ensures var value := q[i..QuotedEnd(q, i).value];
            value != "" && IsTriple(value, 0) == IsTriple(q, i)
  {
    var end := QuotedEnd(q, i).value;
    forall k | i <= k < end ensures q[i..end][k - i] == q[k] {}
  }

  lemma LiteralAlone(q: string, i: nat)
    requires i < |q| && IsQuote(q[i]) && QuotedEnd(q, i).Some?
    ensures var value := q[i..QuotedEnd(q, i).value];
            && value != "" && IsTriple(value, 0) == IsTriple(q, i)
            && |value| >= 2 * DelimiterLength(IsTriple(value, 0))
            && MaskedLiteral(value, 0, |value|) == MaskedLiteral(q, i, QuotedEnd(q, i).value)
  {
    LiteralShape(q, i);
    hide IsTriple;
    var end := QuotedEnd(q, i).value;
    var value := q[i..end];
    var d := DelimiterLength(IsTriple(q, i));
    assert value[0..d] == q[i..i + d];
    assert value[d..|value| - d] == q[i + d..end - d];
    assert value[|value| - d..|value|] == q[end - d..end];
  }

  /** A literal that continues a line is exactly one with a line feed in it. */
  lemma ContinuedMeansLineFeed(q: string, i: nat, t: Token)
    requires i < |q| && IsQuote(q[i]) && QuotedEnd(q, i).Some?
    requires t == Token(StringLiteral, q[i..QuotedEnd(q, i).value], i, QuotedEnd(q, i).value)
    ensures ContinuesLine(t) <==>
              !IsTriple(q, i) && exists k :: i + 1 <= k < QuotedEnd(q, i).value - 1 && q[k] == '\n'
  {
    LiteralAlone(q, i);
    var end := QuotedEnd(q, i).value;
    if ContinuesLine(t) {
      var k :| 0 <= k < |t.value| - 1 && t.value[k] == '\\' && t.value[k + 1] == '\n';
      assert q[i + k + 1] == '\n' && q[end - 1] == q[i];
    }
    if !IsTriple(q, i) {
      if k :| i + 1 <= k < end - 1 && q[k] == '\n' {
        LineFeedIsEscaped(q, q[i], i + 1, k);
        assert t.value[k - 1 - i] == '\\' && t.value[k - 1 - i + 1] == '\n';
      }
    }
  }

  lemma MaskedLiteralChars(q: string, n: string, i: nat)
    requires |n| == |q| && i < |q| && IsQuote(q[i]) && QuotedEnd(q, i).Some?
    requires n[i..QuotedEnd(q, i).value] == MaskedLiteral(q, i, QuotedEnd(q, i).value)
    ensures var end := QuotedEnd(q, i).value;
            var d := DelimiterLength(IsTriple(q, i));
            && (forall k | i <= k < i + d :: n[k] == q[i])
            && (forall k | end - d <= k < end :: n[k] == q[i])
            && (forall k | i + d <= k < end - d :: n[k] == if q[k] == '\n' then '\n' else ' ')
  {
    var end := QuotedEnd(q, i).value;
    var d := DelimiterLength(IsTriple(q, i));
    var m := MaskedLiteral(q, i, end);
    forall k | i <= k < end ensures n[k] == m[k - i] {
      assert n[k] == n[i..end][k - i];
    }
    forall k | end - d <= k < end ensures n[k] == q[i] {
      assert m[k - i] == q[k];
      assert q[i..i + d][k - (end - d)] == q[end - d..end][k - (end - d)];
    }
  }

  /** A blanked-out literal is scanned as one literal again, or breaks the scan. */
  lemma LiteralIsRescanned(q: string, n: string, i: nat)
    requires |n| == |q| && i < |q| && IsQuote(q[i]) && QuotedEnd(q, i).Some?
    requires n[i..QuotedEnd(q, i).value] == MaskedLiteral(q, i, QuotedEnd(q, i).value)
    requires forall k | i <= k < |q| :: n[k] == q[k] || IsBlank(n[k])
    ensures var end := QuotedEnd(q, i).value;
            && IsTriple(n, i) == IsTriple(q, i)
            && PieceAt(n, i) == if ContinuesLine(Token(StringLiteral, q[i..end], i, end)) then Broken
                                else Lexeme(StringLiteral, end)
  {
    hide MaskedLiteral;
    var end := QuotedEnd(q, i).value;
    var triple := IsTriple(q, i);
    var d := DelimiterLength(triple);
    MaskedLiteralChars(q, n, i);
    ContinuedMeansLineFeed(q, i, Token(StringLiteral, q[i..end], i, end));
    TripleIsKept(q, n, i);
    BlankInside(n, q[i], triple, i + d, end - d);
    forall k | i + d <= k < end - d ensures (n[k] == '\n') == (q[k] == '\n') {}
  }

  lemma TripleIsKept(q: string, n: string, i: nat)
    requires |n| == |q| && i < |q| && IsQuote(q[i]) && QuotedEnd(q, i).Some?
    requires forall k | i <= k < |q| :: n[k] == q[k] || IsBlank(n[k])
    requires forall k | i <= k < i + DelimiterLength(IsTriple(q, i)) :: n[k] == q[i]
    ensures IsTriple(n, i) == IsTriple(q, i)
  {
  }

  // ---- The whole query --------------------------------------------------------------------

  lemma {:induction false} Rescan(q: string, n: string, i: nat)
    requires |n| == |q| && i <= |q| && n[i..] == NormalizedFrom(q, i)
    requires forall k | 0 <= k < |q| :: n[k] == q[k] || IsBlank(n[k])
    ensures NoneContinues(TokensFrom(q, i)) ==>
              TokensFrom(n, i) == Veiled(TokensFrom(q, i)) && NormalizedFrom(n, i) == n[i..]
    ensures !NoneContinues(TokensFrom(q, i)) ==> |TokensFrom(n, i)| < |TokensFrom(q, i)|
    decreases |q| - i
  {
    if i < |q| {
      NormalizedTail(q, n, i);
      match PieceAt(q, i)
      case Broken => RescanBroken(q, n, i);
      case Blank(end) => RescanBlank(q, n, i);
      case Lexeme(kind, end) => RescanLexeme(q, n, i);
    }
  }

  lemma RescanBroken(q: string, n: string, i: nat)
    requires |n| == |q| && i < |q| && PieceAt(q, i) == Broken && n[i..] == Masked(q[i..])
    ensures TokensFrom(q, i) == TokensFrom(n, i) == [] && NormalizedFrom(n, i) == n[i..]
  {
    forall k | i <= k < |n| ensures IsSpace(n[k]) {
      assert n[k] == n[i..][k - i];
    }
    BlankRun(n, i, |n|);
    assert n[i..|n|] + "" == n[i..];
  }

  lemma {:induction false} RescanBlank(q: string, n: string, i: nat)
    requires |n| == |q| && i < |q| && PieceAt(q, i).Blank? && n[i..] == NormalizedFrom(q, i)
    requires forall k | 0 <= k < |q| :: n[k] == q[k] || IsBlank(n[k])
    ensures NoneContinues(TokensFrom(q, i)) ==>
              TokensFrom(n, i) == Veiled(TokensFrom(q, i)) && NormalizedFrom(n, i) == n[i..]
    ensures !NoneContinues(TokensFrom(q, i)) ==> |TokensFrom(n, i)| < |TokensFrom(q, i)|
    decreases |q| - i, 0
  {
    NormalizedTail(q, n, i);
    var end := PieceAt(q, i).end;
    BlankPieceIsBlank(q, n, i);
    Rescan(q, n, end);
    BlankRun(n, i, end);
    assert n[i..] == n[i..end] + n[end..];
  }

  lemma BlankPieceIsBlank(q: string, n: string, i: nat)
    requires |n| == |q| && i < |q| && PieceAt(q, i).Blank? && n[i..PieceAt(q, i).end] == MaskedPiece(q, i)
    ensures forall k | i <= k < PieceAt(q, i).end :: IsSpace(n[k])
  {
    var end := PieceAt(q, i).end;
    forall k | i <= k < end ensures IsSpace(n[k]) {
      assert n[k] == n[i..end][k - i];
    }
  }

  lemma {:induction false} RescanLexeme(q: string, n: string, i: nat)
    requires |n| == |q| && i < |q| && PieceAt(q, i).Lexeme? && n[i..] == NormalizedFrom(q, i)
    requires forall k | 0 <= k < |q| :: n[k] == q[k] || IsBlank(n[k])
    ensures NoneContinues(TokensFrom(q, i)) ==>
              TokensFrom(n, i) == Veiled(TokensFrom(q, i)) && NormalizedFrom(n, i) == n[i..]
    ensures !NoneContinues(TokensFrom(q, i)) ==> |TokensFrom(n, i)| < |TokensFrom(q, i)|
    decreases |q| - i, 0
  {
    NormalizedTail(q, n, i);
    var Lexeme(kind, end) := PieceAt(q, i);
    var t := Token(kind, q[i..end], i, end);
    Rescan(q, n, end);
    LexemeIsRescanned(q, n, i, t);
    hide PieceAt, MaskedPiece, ContinuesLine, Veil;
    FirstContinues(t, TokensFrom(q, end));
    if !ContinuesLine(t) {
      VeilFirst(t, TokensFrom(q, end));
      assert n[i..] == n[i..end] + n[end..];
    }
  }

  lemma FirstContinues(t: Token, rest: seq<Token>)
    ensures NoneContinues([t] + rest) <==> !ContinuesLine(t) && NoneContinues(rest)
  {
    assert t in [t] + rest;
    assert forall u | u in rest :: u in [t] + rest;
  }

  lemma VeilFirst(t: Token, rest: seq<Token>)
    ensures Veiled([t] + rest) == [Veil(t)] + Veiled(rest)
  {
  }

  lemma LexemeIsRescanned(q: string, n: string, i: nat, t: Token)
    requires |n| == |q| && i < |q| && PieceAt(q, i).Lexeme?
    requires forall k | 0 <= k < |q| :: n[k] == q[k] || IsBlank(n[k])
    requires n[i..PieceAt(q, i).end] == MaskedPiece(q, i)
    requires t == Token(PieceAt(q, i).kind, q[i..PieceAt(q, i).end], i, PieceAt(q, i).end)
    ensures PieceAt(n, i) == if ContinuesLine(t) then Broken else Lexeme(t.kind, t.end)
    ensures !ContinuesLine(t) ==> n[i..t.end] == Veil(t).value && Veil(t) == t.(value := Veil(t).value)
    ensures !ContinuesLine(t) ==> MaskedPiece(n, i) == n[i..t.end]
  {
    if IsQuote(q[i]) {
      LiteralAlone(q, i);
      LiteralIsRescanned(q, n, i);
      if !ContinuesLine(t) { MaskedTwice(q, n, i); }
    } else {
      CodeIsRescanned(q, n, i);
    }
  }

  lemma MaskedTwice(q: string, n: string, i: nat)
    requires |n| == |q| && i < |q| && IsQuote(q[i]) && QuotedEnd(q, i).Some?
    requires n[i..QuotedEnd(q, i).value] == MaskedLiteral(q, i, QuotedEnd(q, i).value)
    requires IsTriple(n, i) == IsTriple(q, i)
    ensures MaskedLiteral(n, i, QuotedEnd(q, i).value) == n[i..QuotedEnd(q, i).value]
  {
    var end := QuotedEnd(q, i).value;
    var d := DelimiterLength(IsTriple(q, i));
    MaskedLiteralChars(q, n, i);
    assert Masked(n[i + d..end - d]) == n[i + d..end - d];
  }

  /** Scanning the normalized query again finds the same tokens, literals blanked out, and masks
      nothing more, if and only if no one-line literal continues a line. */
  lemma MaskingIsStable(q: string)
    ensures var n := Lex(q).normalized;
            && |n| == |q|
            && (Lex(n).tokens == Veiled(Lex(q).tokens) <==> NoneContinues(Lex(q).tokens))
            && (NoneContinues(Lex(q).tokens) ==> Lex(n).normalized == n)
  {
    var n := Lex(q).normalized;
    forall k | 0 <= k < |q| ensures n[k] == q[k] || IsBlank(n[k]) {
      NormalizedChar(q, 0, k);
    }
    assert n[0..] == n;
    Rescan(q, n, 0);
  }

  /** Tokens tile the query: each is the text between its offsets, and they do not overlap. */
  lemma {:induction false} TokensTile(q: string, i: nat)
    requires i <= |q|
    ensures forall t | t in TokensFrom(q, i) :: i <= t.start < t.end <= |q| && t.value == q[t.start..t.end]
    ensures forall a, b | 0 <= a < b < |TokensFrom(q, i)| :: TokensFrom(q, i)[a].end <= TokensFrom(q, i)[b].start
    decreases |q| - i
  {
    if i < |q| && !PieceAt(q, i).Broken? {
      TokensTile(q, PieceAt(q, i).end);
    }
  }
}
