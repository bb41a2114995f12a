/** Groovy literals as graph_data_gremlin.py prints them, and how the scanner reads them back. */
module GremlinPrinter {
  import opened Wrappers
  import opened GremlinLexer

  // ---- Escaping ------------------------------------------------------------------

  function HexDigit(n: nat): char
    requires n < 16
  {
    if n < 10 then '0' + n as char else 'a' + (n - 10) as char
  }

  function HexValue(c: char): nat {
    if '0' <= c <= '9' then (c - '0') as nat
    else if 'a' <= c <= 'f' then (c - 'a') as nat + 10
    else 0
  }

  function EscapeChar(c: char): string {
    if c == '\\' then "\\\\"
    else if c == '\'' then "\\'"
    else if c == '\n' then "\\n"
    else if c == '\r' then "\\r"
    else if c == '\t' then "\\t"
    else if c == '\U{08}' then "\\b"
    else if c == '\U{0C}' then "\\f"
    else if c < ' ' then "\\u00" + [HexDigit(c as nat / 16), HexDigit(c as nat % 16)]
    else [c]
  }

  function Escape(s: string): string {
    if s == "" then "" else EscapeChar(s[0]) + Escape(s[1..])
  }

  /** `_escape_groovy_single_quoted`. */
  method EscapeGroovySingleQuoted(value: string) returns (escaped: string)
    ensures escaped == Escape(value)
  {
    escaped := "";
    for n := 0 to |value|
      invariant escaped + Escape(value[n..]) == Escape(value)
    {
      hide EscapeChar;
      var c := EscapeChar(value[n]);
      assert value[n..][1..] == value[n + 1..];
      assert escaped + (c + Escape(value[n + 1..])) == escaped + c + Escape(value[n + 1..]);
      escaped := escaped + c;
    }
    assert value[|value|..] == "";
    assert escaped + "" == escaped;
  }

  /** What Groovy makes of the inside of a single-quoted literal. */
  function Unescape(t: string): string {
    if t == "" then ""
    else if t[0] != '\\' || |t| == 1 then [t[0]] + Unescape(t[1..])
    else if t[1] == 'u' && |t| >= 6 && t[2] == t[3] == '0' then
      [(16 * HexValue(t[4]) + HexValue(t[5])) as char] + Unescape(t[6..])
    else [Unescaped(t[1])] + Unescape(t[2..])
  }

  function Unescaped(c: char): char {
    match c
    case 'n' => '\n'
    case 'r' => '\r'
    case 't' => '\t'
    case 'b' => '\U{08}'
    case 'f' => '\U{0C}'
    case _ => c
  }

  lemma UnescapePlain(c: char, rest: string)
    requires c != '\\'
    ensures Unescape([c] + rest) == [c] + Unescape(rest)
  {
    assert ([c] + rest)[1..] == rest;
  }

  lemma UnescapePair(c: char, rest: string)
    requires c != 'u'
    ensures Unescape(['\\', c] + rest) == [Unescaped(c)] + Unescape(rest)
  {
    assert (['\\', c] + rest)[2..] == rest;
  }

  lemma UnescapeHex(a: nat, b: nat, rest: string)
    requires a < 16 && b < 16
    ensures Unescape("\\u00" + [HexDigit(a), HexDigit(b)] + rest) == [(16 * a + b) as char] + Unescape(rest)
  {
    var t := "\\u00" + [HexDigit(a), HexDigit(b)] + rest;
    assert t[6..] == rest;
    assert HexValue(HexDigit(a)) == a && HexValue(HexDigit(b)) == b;
  }

  lemma UnescapeFirst(c: char, rest: string)
    ensures Unescape(EscapeChar(c) + rest) == [c] + Unescape(rest)
  {
    hide Unescape, HexDigit;
    var e := EscapeChar(c);
    if |e| == 1 {
      UnescapePlain(c, rest);
    } else if |e| == 2 {
      assert e == ['\\', e[1]];
      UnescapePair(e[1], rest);
    } else {
      UnescapeHex(c as nat / 16, c as nat % 16, rest);
    }
  }

  /** Unescaping undoes escaping, for every string. */
  lemma {:induction false} UnescapeUndoesEscape(s: string)
    ensures Unescape(Escape(s)) == s
  {
    if s != "" {
      UnescapeUndoesEscape(s[1..]);
      UnescapeFirst(s[0], Escape(s[1..]));
    }
  }

  // ---- The printed literal in the scanner ----------------------------------------------

  function Quoted(s: string): string {
    "'" + Escape(s) + "'"
  }

  /** The text s stands in q at offset i. */
  predicate StandsAt(q: string, i: nat, s: string) {
    i + |s| <= |q| && q[i..i + |s|] == s
  }

  lemma StandsSplit(q: string, i: nat, a: string, b: string)
    ensures StandsAt(q, i, a + b) <==> StandsAt(q, i, a) && StandsAt(q, i + |a|, b)
  {
    if StandsAt(q, i, a + b) {
      assert q[i..i + |a|] == q[i..i + |a + b|][..|a|] == a;
      assert q[i + |a|..i + |a| + |b|] == q[i..i + |a + b|][|a|..] == b;
    }
  }

  lemma StandsChar(q: string, i: nat, s: string, k: nat)
    requires StandsAt(q, i, s) && k < |s|
    ensures i + k < |q| && q[i + k] == s[k]
  {
    assert q[i..i + |s|][k] == s[k];
  }

  lemma EscapedCharIsInside(q: string, c: char, i: nat)
    requires StandsAt(q, i, EscapeChar(c))
    ensures InsideEnd(q, '\'', false, i) == InsideEnd(q, '\'', false, i + |EscapeChar(c)|)
  {
    var e := EscapeChar(c);
    StandsChar(q, i, e, 0);
    if |e| == 6 {
      StandsChar(q, i, e, 2);
      StandsChar(q, i, e, 3);
      StandsChar(q, i, e, 4);
      StandsChar(q, i, e, 5);
      hide EscapeChar;
      InsideEscape(q, i);
      InsidePlain(q, i + 2);
      InsidePlain(q, i + 3);
      InsidePlain(q, i + 4);
      InsidePlain(q, i + 5);
    } else if |e| == 2 {
      InsideEscape(q, i);
    } else {
      InsidePlain(q, i);
    }
  }

  lemma InsidePlain(q: string, i: nat)
    requires i < |q| && q[i] != '\'' && q[i] != '\\' && !IsLineBreak(q[i])
    ensures InsideEnd(q, '\'', false, i) == InsideEnd(q, '\'', false, i + 1)
  {
  }

  lemma InsideEscape(q: string, i: nat)
    requires i + 1 < |q| && q[i] == '\\'
    ensures InsideEnd(q, '\'', false, i) == InsideEnd(q, '\'', false, i + 2)
  {
  }

  lemma InsideCloses(q: string, i: nat)
    requires i < |q| && q[i] == '\''
    ensures InsideEnd(q, '\'', false, i) == Some(i + 1)
  {
  }

  lemma EscapeFirst(s: string)
    ensures Escape(s) == if s == "" then "" else EscapeChar(s[0]) + Escape(s[1..])
  {
  }

  lemma {:induction false} EscapedIsInside(q: string, s: string, i: nat)
    requires StandsAt(q, i, Escape(s) + "'")
    ensures InsideEnd(q, '\'', false, i) == Some(i + |Escape(s)| + 1)
  {
    hide Escape, EscapeChar, InsideEnd, StandsAt;
    EscapeFirst(s);
    StandsSplit(q, i, Escape(s), "'");
    if s == "" {
      StandsChar(q, i, "'", 0);
      InsideCloses(q, i);
    } else {
      var e, rest := EscapeChar(s[0]), Escape(s[1..]);
      StandsSplit(q, i, e, rest);
      EscapedCharIsInside(q, s[0], i);
      StandsSplit(q, i + |e|, rest, "'");
      EscapedIsInside(q, s[1..], i + |e|);
    }
  }

  lemma QuotedStands(q: string, i: nat, s: string)
    requires StandsAt(q, i, Quoted(s))
    ensures i + |Escape(s)| + 2 <= |q| && q[i] == '\'' && q[i + |Escape(s)| + 1] == '\''
    ensures StandsAt(q, i + 1, Escape(s) + "'") && StandsAt(q, i + 1, Escape(s))
  {
    hide Escape;
    assert Quoted(s) == "'" + (Escape(s) + "'");
    StandsSplit(q, i, "'", Escape(s) + "'");
    StandsSplit(q, i + 1, Escape(s), "'");
    StandsChar(q, i, "'", 0);
    StandsChar(q, i + 1 + |Escape(s)|, "'", 0);
  }

  /** The scanner takes a printed string for one literal that ends where it should, unless the
      string is empty and another quote follows; and unescaping gives the string back. */
  lemma LiteralRoundTrip(q: string, i: nat, s: string)
    requires StandsAt(q, i, Quoted(s))
    ensures PieceAt(q, i) == Lexeme(StringLiteral, i + |Quoted(s)|)
            <==> !(s == "" && i + 2 < |q| && q[i + 2] == '\'')
    ensures Unescape(Quoted(s)[1..|Quoted(s)| - 1]) == s
  {
    QuotedStands(q, i, s);
    EscapedIsInside(q, s, i + 1);
    QuotedIsTriple(q, i, s);
    QuotedPiece(q, i);
    assert Quoted(s)[1..|Quoted(s)| - 1] == Escape(s);
    UnescapeUndoesEscape(s);
  }

  lemma QuotedPiece(q: string, i: nat)
    requires i < |q| && q[i] == '\''
    ensures PieceAt(q, i) == if QuotedEnd(q, i).None? then Broken else Lexeme(StringLiteral, QuotedEnd(q, i).value)
    ensures !IsTriple(q, i) ==> QuotedEnd(q, i) == InsideEnd(q, '\'', false, i + 1)
  {
  }

  lemma QuotedIsTriple(q: string, i: nat, s: string)
    requires i + 2 <= |q| && q[i] == '\'' && StandsAt(q, i + 1, Escape(s) + "'")
    ensures IsTriple(q, i) <==> s == "" && i + 2 < |q| && q[i + 2] == '\''
  {
    EscapeStart(s);
    StandsChar(q, i + 1, Escape(s) + "'", 0);
  }

  /** An escaped string does not start with a bare quote. */
  lemma EscapeStart(s: string)
    ensures s == "" <==> Escape(s) == ""
    ensures s != "" ==> Escape(s)[0] != '\''
  {
    if s != "" { assert EscapeChar(s[0]) != "" && EscapeChar(s[0])[0] != '\''; }
  }

  /** Different strings are printed differently. */
  lemma QuotedIsInjective(s: string, t: string)
    requires Quoted(s) == Quoted(t)
    ensures s == t
  {
    assert Quoted(s)[1..|Quoted(s)| - 1] == Escape(s);
    assert Quoted(t)[1..|Quoted(t)| - 1] == Escape(t);
    UnescapeUndoesEscape(s);
    UnescapeUndoesEscape(t);
  }

  // ---- Values ----------------------------------------------------------------------------

  predicate AllDigits(s: string) {
    forall k | 0 <= k < |s| :: IsDigit(s[k])
  }

  type DigitString = s: string | s != "" && AllDigits(s) witness "0"

  datatype Exponent = Exponent(negative: bool, digits: DigitString)

  /** The text that `json.dumps` makes of a float. */
  datatype Float =
    | Finite(negative: bool, whole: DigitString, fraction: Option<DigitString>, exponent: Option<Exponent>)
    | NaN
    | Infinite(negative: bool)

  /** JSON values; the entries of an object are in the order of their keys. */
  datatype Value =
    | Text(s: string)
    | Integer(n: int)
    | Real(x: Float)
    | Flag(b: bool)
    | Null
    | Items(items: seq<Value>)
    | Entries(entries: seq<(string, Value)>)

  function Digits(n: nat): (s: string)
    ensures s != "" && AllDigits(s)
  {
    var last := ['0' + (n % 10) as char];
    if n < 10 then last else Digits(n / 10) + last
  }

  function IntegerText(n: int): string {
    if n < 0 then "-" + Digits(-n) else Digits(n)
  }

  function FractionText(fraction: Option<DigitString>): string {
    if fraction.None? then "" else "." + fraction.value
  }

  function ExponentText(exponent: Option<Exponent>): string {
    if exponent.None? then ""
    else "e" + ((if exponent.value.negative then "-" else "+") + exponent.value.digits)
  }

  function FloatText(x: Float): string {
    match x
    case Finite(negative, whole, fraction, exponent) =>
      (if negative then "-" else "") + ((whole + FractionText(fraction)) + ExponentText(exponent))
    case NaN => "NaN"
    case Infinite(negative) => if negative then "-Infinity" else "Infinity"
  }

  function Join(sep: string, parts: seq<string>): string {
    if parts == [] then ""
    else if |parts| == 1 then parts[0]
    else parts[0] + sep + Join(sep, parts[1..])
  }

  /** `_g`. */
  function Groovy(v: Value): string {
    match v
    case Text(s) => Quoted(s)
    case Integer(n) => IntegerText(n)
    case Real(x) => FloatText(x)
    case Flag(b) => if b then "true" else "false"
    case Null => "null"
    case Items(items) => "[" + Join(", ", seq(|items|, i requires 0 <= i < |items| => Groovy(items[i]))) + "]"
    case Entries(entries) =>
      "[" + Join(", ", seq(|entries|, i requires 0 <= i < |entries| =>
                             Quoted(entries[i].0) + ": " + Groovy(entries[i].1))) + "]"
  }
}
