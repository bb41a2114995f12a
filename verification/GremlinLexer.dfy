/** The one-pass scanner of gremlin_policy.py. */
module GremlinLexer {
  import opened Wrappers

  datatype Kind = Identifier | Number | StringLiteral | Punctuation | Unknown

  datatype Token = Token(kind: Kind, value: string, start: nat, end: nat)

  // ---- Characters ---------------------------------------------------------------

  /** `str.isspace`. */
  predicate IsSpace(c: char) {
    || '\t' <= c <= '\r' || '\U{1C}' <= c <= ' ' || c == '\U{85}' || c == '\U{A0}' || c == '\U{1680}'
    || '\U{2000}' <= c <= '\U{200A}' || c == '\U{2028}' || c == '\U{2029}' || c == '\U{202F}' || c == '\U{205F}'
    || c == '\U{3000}'
  }

  predicate IsDigit(c: char) {
    '0' <= c <= '9'
  }

  predicate IsIdentifierStart(c: char) {
    c == '_' || 'a' <= c <= 'z' || 'A' <= c <= 'Z'
  }

  predicate IsIdentifierPart(c: char) {
    IsIdentifierStart(c) || IsDigit(c)
  }

  predicate IsSafePunctuation(c: char) {
    c in ".(),[]:-"
  }

  predicate IsQuote(c: char) {
    c == '\'' || c == '"'
  }

  predicate IsLineBreak(c: char) {
    c == '\r' || c == '\n'
  }

  // ---- Where each kind of lexeme ends ---------------------------------------------

  predicate ThreeQuotes(q: string, i: nat, quote: char) {
    i + 3 <= |q| && q[i] == quote && q[i + 1] == quote && q[i + 2] == quote
  }

  function DelimiterLength(triple: bool): nat {
    if triple then 3 else 1
  }

  /** The scan of the inside of a literal from i on. */
  function InsideEnd(q: string, quote: char, triple: bool, i: nat): (r: Option<nat>)
    requires IsQuote(quote)
    decreases |q| - i
    ensures r.Some? ==> i + DelimiterLength(triple) <= r.value <= |q|
    ensures r.Some? ==> forall k | r.value - DelimiterLength(triple) <= k < r.value :: q[k] == quote
  {
    if i >= |q| then None
    else if q[i] == '\\' then
      if i + 1 >= |q| then None else InsideEnd(q, quote, triple, i + 2)
    else if triple then
      if ThreeQuotes(q, i, quote) then Some(i + 3) else InsideEnd(q, quote, triple, i + 1)
    else if q[i] == quote then Some(i + 1)
    else if IsLineBreak(q[i]) then None
    else InsideEnd(q, quote, triple, i + 1)
  }

  predicate IsTriple(q: string, i: nat)
    requires i < |q|
  {
    ThreeQuotes(q, i, q[i])
  }

  function InsideStart(q: string, i: nat): nat
    requires i < |q|
  {
    i + DelimiterLength(IsTriple(q, i))
  }

  /** `_consume_quoted`: the first offset after the literal, or None when it is not complete. */
  function QuotedEnd(q: string, i: nat): (r: Option<nat>)
    requires i < |q| && IsQuote(q[i])
    ensures r.Some? ==>
              var d := DelimiterLength(IsTriple(q, i));
              && i + 2 * d <= r.value <= |q|
              && q[i..i + d] == q[r.value - d..r.value]
  {
    InsideEnd(q, q[i], IsTriple(q, i), InsideStart(q, i))
  }

  function LineEnd(q: string, i: nat): (r: nat)
    requires i <= |q|
    decreases |q| - i
    ensures i <= r <= |q|
  {
    if i < |q| && !IsLineBreak(q[i]) then LineEnd(q, i + 1) else i
  }

  /** `q.find(pattern, i)` for a two-character pattern. */
  function Find(q: string, a: char, b: char, i: nat): (r: Option<nat>)
    decreases |q| - i
    ensures r.Some? ==> i <= r.value && r.value + 2 <= |q|
  {
    if i + 2 > |q| then None
    else if q[i] == a && q[i + 1] == b then Some(i)
    else Find(q, a, b, i + 1)
  }

  function IdentifierEnd(q: string, i: nat): (r: nat)
    requires i <= |q|
    decreases |q| - i
    ensures i <= r <= |q|
  {
    if i < |q| && IsIdentifierPart(q[i]) then IdentifierEnd(q, i + 1) else i
  }

  function NumberEnd(q: string, i: nat, seenDot: bool): (r: nat)
    requires i <= |q|
    decreases |q| - i
    ensures i <= r <= |q|
  {
    if i >= |q| then i
    else if IsDigit(q[i]) then NumberEnd(q, i + 1, seenDot)
    else if q[i] == '.' && !seenDot then NumberEnd(q, i + 1, true)
    else i
  }

  // ---- One piece of the query --------------------------------------------------------

  /** Blank: white space or a comment. Broken: an incomplete literal or comment. */
  datatype Piece = Blank(end: nat) | Lexeme(kind: Kind, end: nat) | Broken

  predicate At(q: string, i: nat, a: char, b: char) {
    i + 1 < |q| && q[i] == a && q[i + 1] == b
  }

  function CommentAt(q: string, i: nat): (p: Piece)
    requires At(q, i, '/', '*')
    ensures p == Broken || (p.Blank? && i < p.end <= |q|)
  {
    var close := Find(q, '*', '/', i + 2);
    if close.None? then Broken
    else
      var nested := Find(q[..close.value], '/', '*', i + 2);
      if nested.Some? then Broken else Blank(close.value + 2)
  }

  function PieceAt(q: string, i: nat): (p: Piece)
    requires i < |q|
    ensures !p.Broken? ==> i < p.end <= |q|
  {
    var c := q[i];
    if IsSpace(c) then Blank(i + 1)
    else if At(q, i, '/', '/') then Blank(LineEnd(q, i + 2))
    else if At(q, i, '/', '*') then CommentAt(q, i)
    else if IsQuote(c) then
      var end := QuotedEnd(q, i);
      if end.None? then Broken else Lexeme(StringLiteral, end.value)
    else if IsIdentifierStart(c) then Lexeme(Identifier, IdentifierEnd(q, i + 1))
    else if IsDigit(c) then Lexeme(Number, NumberEnd(q, i + 1, false))
    else if IsSafePunctuation(c) then Lexeme(Punctuation, i + 1)
    else Lexeme(Unknown, i + 1)
  }

  /** Contents of comments and literals, blanked out; line feeds stay. */
  function Masked(s: string): (r: string)
    ensures |r| == |s|
    ensures forall k | 0 <= k < |s| :: r[k] == if s[k] == '\n' then '\n' else ' '
  {
    seq(|s|, k requires 0 <= k < |s| => if s[k] == '\n' then '\n' else ' ')
  }

  function MaskedLiteral(q: string, i: nat, end: nat): (r: string)
    requires i < |q| && i + 2 * DelimiterLength(IsTriple(q, i)) <= end <= |q|
    ensures |r| == end - i
  {
    var d := DelimiterLength(IsTriple(q, i));
    q[i..i + d] + Masked(q[i + d..end - d]) + q[end - d..end]
  }

  function MaskedPiece(q: string, i: nat): (r: string)
    requires i < |q|
    ensures var p := PieceAt(q, i); |r| == if p.Broken? then |q| - i else p.end - i
  {
    match PieceAt(q, i)
    case Broken => Masked(q[i..])
    case Blank(end) => if IsSpace(q[i]) then [q[i]] else Masked(q[i..end])
    case Lexeme(kind, end) => if kind == StringLiteral then MaskedLiteral(q, i, end) else q[i..end]
  }

  // ---- The whole scan --------------------------------------------------------------

  function TokensFrom(q: string, i: nat): seq<Token>
    requires i <= |q|
    decreases |q| - i
  {
    if i == |q| then []
    else
      match PieceAt(q, i)
      case Broken => []
      case Blank(end) => TokensFrom(q, end)
      case Lexeme(kind, end) => [Token(kind, q[i..end], i, end)] + TokensFrom(q, end)
  }

  predicate ValidFrom(q: string, i: nat)
    requires i <= |q|
    decreases |q| - i
  {
    if i == |q| then true else !PieceAt(q, i).Broken? && ValidFrom(q, PieceAt(q, i).end)
  }

  function NormalizedFrom(q: string, i: nat): (r: string)
    requires i <= |q|
    decreases |q| - i
    ensures |r| == |q| - i
  {
    if i == |q| then ""
    else
      var p := PieceAt(q, i);
      MaskedPiece(q, i) + if p.Broken? then "" else NormalizedFrom(q, p.end)
  }

  datatype Lexed = Lexed(tokens: seq<Token>, valid: bool, normalized: string)

  function Lex(q: string): Lexed {
    Lexed(TokensFrom(q, 0), ValidFrom(q, 0), NormalizedFrom(q, 0))
  }

  // ---- The code ------------------------------------------------------------------------

  /** `_consume_quoted`. */
  method ConsumeQuoted(q: string, start: nat) returns (end: Option<nat>)
    requires start < |q| && IsQuote(q[start])
    ensures end == QuotedEnd(q, start)
  {
    var quote := q[start];
    var triple := ThreeQuotes(q, start, quote);
    var index := start + if triple then 3 else 1;
    while index < |q|
      invariant InsideEnd(q, quote, triple, index) == QuotedEnd(q, start)
    {
      if q[index] == '\\' {
        if index + 1 >= |q| { return None; }
        index := index + 2;
        continue;
      }
      if triple {
        if ThreeQuotes(q, index, quote) { return Some(index + 3); }
      } else if q[index] == quote {
        return Some(index + 1);
      } else if IsLineBreak(q[index]) {
        return None;
      }
      index := index + 1;
    }
    end := None;
  }

  /** The code branches of the scanner: anything but blanks, comments and literals. */
  method ConsumeCode(q: string, start: nat) returns (kind: Kind, index: nat)
    requires start < |q| && PieceAt(q, start).Lexeme? && !IsQuote(q[start])
    ensures PieceAt(q, start) == Lexeme(kind, index)
  {
    index := start + 1;
    if IsIdentifierStart(q[start]) {
      kind := Identifier;
      while index < |q| && IsIdentifierPart(q[index])
        invariant index <= |q| && IdentifierEnd(q, start + 1) == IdentifierEnd(q, index)
      {
        index := index + 1;
      }
    } else if IsDigit(q[start]) {
      kind := Number;
      var seenDot := false;
      while index < |q|
        invariant index <= |q| && NumberEnd(q, start + 1, false) == NumberEnd(q, index, seenDot)
      {
        if IsDigit(q[index]) {
          index := index + 1;
        } else if q[index] == '.' && !seenDot {
          seenDot := true;
          index := index + 1;
        } else {
          break;
        }
      }
    } else {
      kind := if IsSafePunctuation(q[start]) then Punctuation else Unknown;
    }
  }

  /** The blank branches; None for an incomplete or nested block comment. */
  method ConsumeBlank(q: string, start: nat) returns (end: Option<nat>)
    requires start < |q| && (IsSpace(q[start]) || At(q, start, '/', '/') || At(q, start, '/', '*'))
    ensures PieceAt(q, start) == if end.None? then Broken else Blank(end.value)
  {
    if IsSpace(q[start]) { return Some(start + 1); }
    if At(q, start, '/', '/') {
      var index := start + 2;
      while index < |q| && !IsLineBreak(q[index])
        invariant index <= |q| && LineEnd(q, start + 2) == LineEnd(q, index)
      {
        index := index + 1;
      }
      return Some(index);
    }
    var close := Find(q, '*', '/', start + 2);
    if close.None? { return None; }
    if Find(q[..close.value], '/', '*', start + 2).Some? { return None; }
    end := Some(close.value + 2);
  }

  /** `_lex_gremlin_query`. */
  method LexGremlinQuery(q: string) returns (lexed: Lexed)
    ensures lexed == Lex(q)
  {
    hide PieceAt, MaskedPiece;
    var tokens: seq<Token> := [];
    var normalized := "";
    var valid := true;
    var index := 0;
    while index < |q|
      invariant 0 <= index <= |q| && valid
      invariant tokens + TokensFrom(q, index) == TokensFrom(q, 0)
      invariant normalized + NormalizedFrom(q, index) == NormalizedFrom(q, 0)
      invariant ValidFrom(q, index) == ValidFrom(q, 0)
    {
      var piece := NextPiece(q, index);
      var masked := MaskedPiece(q, index);
      match piece
      case Broken =>
        assert masked + "" == masked;
        return Lexed(tokens, false, normalized + masked);
      case Blank(end) =>
        NormalizedStep(normalized, q, index);
        normalized, index := normalized + masked, end;
      case Lexeme(kind, end) =>
        NormalizedStep(normalized, q, index);
        TokensStep(tokens, q, index);
        tokens, normalized, index := tokens + [Token(kind, q[index..end], index, end)], normalized + masked, end;
    }
    assert tokens + [] == tokens && normalized + "" == normalized;
    lexed := Lexed(tokens, valid, normalized);
  }

  method NextPiece(q: string, start: nat) returns (piece: Piece)
    requires start < |q|
    ensures piece == PieceAt(q, start)
  {
    if IsSpace(q[start]) || At(q, start, '/', '/') || At(q, start, '/', '*') {
      var end := ConsumeBlank(q, start);
      piece := if end.None? then Broken else Blank(end.value);
    } else if IsQuote(q[start]) {
      var end := ConsumeQuoted(q, start);
      piece := if end.None? then Broken else Lexeme(StringLiteral, end.value);
    } else {
      var kind, end := ConsumeCode(q, start);
      piece := Lexeme(kind, end);
    }
  }

  lemma NormalizedStep(before: string, q: string, i: nat)
    requires i < |q| && !PieceAt(q, i).Broken?
    ensures before + NormalizedFrom(q, i) == before + MaskedPiece(q, i) + NormalizedFrom(q, PieceAt(q, i).end)
  {
  }

  lemma TokensStep(before: seq<Token>, q: string, i: nat)
    requires i < |q| && PieceAt(q, i).Lexeme?
    ensures var p := PieceAt(q, i);
            before + TokensFrom(q, i) == before + [Token(p.kind, q[i..p.end], i, p.end)] + TokensFrom(q, p.end)
  {
  }
}
