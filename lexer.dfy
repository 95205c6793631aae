/** The lexer of yan-lang.hpp (lines 29-59, 201-209 and 454-761): positions, the token
    vocabulary, a reference definition of the token stream (`Lex`), and the `Lexer` object
    that produces it one character at a time. */
module Lexer {
  import opened Common
  import opened Values

  // ---------------------------------------------------------------------------------
  // Positions
  // ---------------------------------------------------------------------------------

  /** `Position`: a character index with its 0-based line and column. */
  datatype Position = Position(index: int, line: int, column: int)

  /** `Position::Advance`: one step forward over the character `left` (the lexer passes the
      character it is leaving); leaving a newline starts the next line. */
  function AdvancePosition(p: Position, left: Option<char>): (q: Position)
    ensures q.index == p.index + 1
  {
    if left == Some('\n') then Position(p.index + 1, p.line + 1, 0)
    else Position(p.index + 1, p.line, p.column + 1)
  }

  /** The character at index `i`, or `None` past the end (the source's `EOF_`). */
  function CharAt(text: string, i: int): Option<char> {
    if 0 <= i < |text| then Some(text[i]) else None
  }

  function Prefix(text: string, i: nat): string {
    if i <= |text| then text[..i] else text
  }

  /** Index of the last newline in `s`, or -1. */
  function LastNewline(s: string): (k: int)
    ensures -1 <= k < |s|
    ensures k >= 0 ==> s[k] == '\n'
  {
    if s == [] then -1
    else if s[|s| - 1] == '\n' then |s| - 1
    else LastNewline(s[..|s| - 1])
  }

  /** The position of index `i`: its line is the number of newlines before it and its
      column the distance from the character after the last of them. */
  function PosAt(text: string, i: nat): Position {
    var p := Prefix(text, i);
    Position(i, CountChar(p, '\n'), i - 1 - LastNewline(p))
  }

  /** Advancing the position of index `i` over the character found there gives the
      position of index `i + 1`: the incremental bookkeeping agrees with `PosAt`. */
  lemma AdvancePosAt(text: string, i: nat)
    ensures AdvancePosition(PosAt(text, i), CharAt(text, i)) == PosAt(text, i + 1)
  {
    if i < |text| {
      assert Prefix(text, i + 1)[..i] == Prefix(text, i);
    } else {
      assert text[..|text|] == text;
    }
  }

  /** The lexer's start position (-1, 0, -1), advanced once, is index 0 of line 0. */
  lemma StartPosition(text: string)
    ensures AdvancePosition(Position(-1, 0, -1), None) == PosAt(text, 0)
  {
  }

  // ---------------------------------------------------------------------------------
  // Tokens
  // ---------------------------------------------------------------------------------

  datatype TokenType =
    | Int | Float | Plus | Minus | Mul | Div | Pow | LParen | RParen | LSquare | RSquare
    | Identifier | Keyword | Eq | Equal | NotEqual | Lt | Gt | Lte | Gte | Comma | Arrow
    | String | NewLine | Dot | Colon | LBrace | RBrace | Eof

  /** What a token carries in its `void *value`. */
  datatype TokenValue = NoValue | IntValue(i: int) | FloatValue(r: real) | Text(s: string)

  /** A token and its start position. */
  datatype Token = Token(kind: TokenType, value: TokenValue, start: Position)

  /** A lexing error and the position it is reported at. */
  datatype LexError = LexError(error: Error, at: Position)

  /** `LONG_MAX` on an LP64 platform: what `istringstream >> long` stores on overflow. */
  const LongMax: int := 0x7FFF_FFFF_FFFF_FFFF

  /** `KEYWORDS`, by position. */
  const KeywordCount: nat := 19

  function KeywordAt(k: nat): string
    requires k < KeywordCount
  {
    match k
    case 0 => "var"
    case 1 => "and"
    case 2 => "or"
    case 3 => "not"
    case 4 => "if"
    case 5 => "elif"
    case 6 => "then"
    case 7 => "else"
    case 8 => "for"
    case 9 => "while"
    case 10 => "step"
    case 11 => "to"
    case 12 => "function"
    case 13 => "end"
    case 14 => "return"
    case 15 => "continue"
    case 16 => "break"
    case 17 => "in"
    case _ => "new"
  }

  /** `Lexer::Contains(KEYWORDS, w)`: a linear search of the keyword list from `k` on. */
  predicate IsKeywordFrom(w: string, k: nat)
    decreases KeywordCount - k
  {
    k < KeywordCount && (KeywordAt(k) == w || IsKeywordFrom(w, k + 1))
  }

  predicate IsKeyword(w: string) {
    IsKeywordFrom(w, 0)
  }

  /** The search finds `w` exactly when some keyword at or after `k` is `w`. */
  lemma {:induction false} IsKeywordFromSpec(w: string, k: nat)
    ensures IsKeywordFrom(w, k) <==> exists j :: k <= j < KeywordCount && KeywordAt(j) == w
    decreases KeywordCount - k
  {
    if k < KeywordCount {
      IsKeywordFromSpec(w, k + 1);
    }
  }

  predicate IsDigit(c: char) { '0' <= c <= '9' }
  predicate IsLetter(c: char) { 'a' <= c <= 'z' || 'A' <= c <= 'Z' }
  predicate IsIdentChar(c: char) { IsLetter(c) || IsDigit(c) || c == '_' }

  /** The tokens made of one character. */
  function SingleCharKind(c: char): Option<TokenType> {
    match c
    case '+' => Some(Plus)
    case '*' => Some(Mul)
    case '/' => Some(Div)
    case '(' => Some(LParen)
    case ')' => Some(RParen)
    case '[' => Some(LSquare)
    case ']' => Some(RSquare)
    case '^' => Some(Pow)
    case ',' => Some(Comma)
    case '.' => Some(Dot)
    case ':' => Some(Colon)
    case '{' => Some(LBrace)
    case '}' => Some(RBrace)
    case _ => None
  }

  /** The operators `MakeEquals`, `MakeLtToken`, `MakeGtToken` and
      `MakeMinusOrArrowToken` read: the one-character token, the character that may
      follow it, and the two-character token they then make. */
  function TwoCharKind(c: char): Option<(TokenType, char, TokenType)> {
    match c
    case '-' => Some((Minus, '>', Arrow))
    case '=' => Some((Eq, '=', Equal))
    case '<' => Some((Lt, '=', Lte))
    case '>' => Some((Gt, '=', Gte))
    case _ => None
  }

  /** Value of a string of decimal digits. */
  function DigitsValue(s: string): (v: nat)
  {
    if s == [] then 0
    else DigitsValue(s[..|s| - 1]) * 10 + (if IsDigit(s[|s| - 1]) then s[|s| - 1] as int - '0' as int else 0)
  }

  function Pow10(n: nat): (p: nat)
    ensures p >= 1
  {
    if n == 0 then 1 else 10 * Pow10(n - 1)
  }

  function IndexOfDot(s: string): (k: nat)
    requires '.' in s
    ensures k < |s| && s[k] == '.'
  {
    if s[0] == '.' then 0 else 1 + IndexOfDot(s[1..])
  }

  /** The token `MakeNumber` builds from its lexeme: an `Int` parsed as a `long` (clamped
      at `LONG_MAX`) without a dot, a `Float` with one. */
  function NumberToken(lexeme: string, p: Position): Token {
    if '.' in lexeme then
      var d := IndexOfDot(lexeme);
      var frac := lexeme[d + 1..];
      Token(TokenType.Float, FloatValue(DigitsValue(lexeme[..d]) as real + DigitsValue(frac) as real / Pow10(|frac|) as real), p)
    else
      Token(TokenType.Int, IntValue(if DigitsValue(lexeme) > LongMax then LongMax else DigitsValue(lexeme)), p)
  }

  /** End of the number lexeme scanned from `i`: digits and at most one dot. */
  function NumberEnd(text: string, i: nat, seenDot: bool): (e: nat)
    requires i <= |text|
    ensures i <= e <= |text|
    ensures i < |text| && IsDigit(text[i]) ==> i < e
    decreases |text| - i
  {
    if i < |text| && (IsDigit(text[i]) || (text[i] == '.' && !seenDot)) then
      NumberEnd(text, i + 1, seenDot || text[i] == '.')
    else i
  }

  /** End of the identifier scanned from `i`. */
  function IdentEnd(text: string, i: nat): (e: nat)
    requires i <= |text|
    ensures i <= e <= |text|
    ensures i < |text| && IsIdentChar(text[i]) ==> i < e
    decreases |text| - i
  {
    if i < |text| && IsIdentChar(text[i]) then IdentEnd(text, i + 1) else i
  }

  /** The character an escape sequence `\c` stands for (`ESCAPED_CHARACTERS`); any other
      escaped character stands for itself. */
  function Unescape(c: char): char {
    match c
    case 'n' => '\n'
    case 't' => '\t'
    case 'b' => '\U{8}'
    case 'r' => '\r'
    case _ => c
  }

  function PrependBody(c: string, r: Option<(string, nat)>): Option<(string, nat)> {
    match r
    case None => None
    case Some((s, e)) => Some((c + s, e))
  }

  lemma PrependBodyAssoc(a: string, b: string, r: Option<(string, nat)>)
    ensures PrependBody(a, PrependBody(b, r)) == PrependBody(a + b, r)
    ensures PrependBody("", r) == r
  {
    match r
    case None =>
    case Some((x, e)) =>
      assert a + (b + x) == (a + b) + x;
      assert "" + x == x;
  }

  /** The contents of a string literal whose body starts at `i`, and the index after its
      closing quote; `None` when the text ends first. */
  function StringBody(text: string, i: nat): (r: Option<(string, nat)>)
    requires i <= |text|
    ensures r.Some? ==> i < r.value.1 <= |text|
    decreases |text| - i, 1
  {
    if i == |text| then None
    else if text[i] == '\'' then Some(("", i + 1))
    else if text[i] == '\\' then EscapedBody(text, i + 1)
    else PrependBody([text[i]], StringBody(text, i + 1))
  }

  /** As `StringBody`, where the character at `i` follows a backslash. */
  function EscapedBody(text: string, i: nat): (r: Option<(string, nat)>)
    requires i <= |text|
    ensures r.Some? ==> i < r.value.1 <= |text|
    decreases |text| - i, 0
  {
    if i == |text| then None
    else PrependBody([Unescape(text[i])], StringBody(text, i + 1))
  }

  function Prefixed(ts: seq<Token>, r: Result<seq<Token>, LexError>): Result<seq<Token>, LexError> {
    match r
    case Ok(rest) => Ok(ts + rest)
    case Err(e) => Err(e)
  }

  /** One step of `Lexer::MakeTokens` at a character: skip it, emit a token and continue
      at `next`, or fail. */
  datatype Step = Skip(next: nat) | Emit(tok: Token, next: nat) | Fail(err: LexError)

  /** The step the lexer takes at index `i`; every step that continues moves forward. */
  function LexStep(text: string, i: nat): (st: Step)
    requires i < |text|
    ensures !st.Fail? ==> i < st.next <= |text|
    ensures st.Emit? ==> st.tok.kind != Eof
  {
    var c := text[i];
    if c == ' ' || c == '\t' then Skip(i + 1)
    else if c == '\n' || c == ';' then Emit(Token(NewLine, NoValue, PosAt(text, i)), i + 1)
    else if IsDigit(c) then NumberStep(text, i)
    else if IsLetter(c) || c == '_' then WordStep(text, i)
    else OperatorStep(text, i)
  }

  /** `MakeNumber` at a digit. */
  function NumberStep(text: string, i: nat): (st: Step)
    requires i < |text| && IsDigit(text[i])
    ensures st.Emit? && i < st.next <= |text| && st.tok.kind != Eof
  {
    var e := NumberEnd(text, i, false);
    Emit(NumberToken(text[i..e], PosAt(text, i)), e)
  }

  /** `MakeIdentifier` at a letter or underscore. */
  function WordStep(text: string, i: nat): (st: Step)
    requires i < |text| && (IsLetter(text[i]) || text[i] == '_')
    ensures st.Emit? && i < st.next <= |text| && st.tok.kind != Eof
  {
    var e := IdentEnd(text, i);
    var w := text[i..e];
    Emit(Token(if IsKeyword(w) then Keyword else Identifier, Text(w), PosAt(text, i)), e)
  }

  /** The operators, string literals and illegal characters. */
  function OperatorStep(text: string, i: nat): (st: Step)
    requires i < |text|
    ensures !st.Fail? ==> i < st.next <= |text|
    ensures st.Emit? ==> st.tok.kind != Eof
  {
    var p := PosAt(text, i);
    var c := text[i];
    if SingleCharKind(c).Some? then Emit(Token(SingleCharKind(c).value, NoValue, p), i + 1)
    else if TwoCharKind(c).Some? then
      var (one, next, two) := TwoCharKind(c).value;
      if CharAt(text, i + 1) == Some(next) then Emit(Token(two, NoValue, p), i + 2)
      else Emit(Token(one, NoValue, p), i + 1)
    else if c == '!' then
      if CharAt(text, i + 1) == Some('=') then Emit(Token(NotEqual, NoValue, p), i + 2)
      else Fail(LexError(Error(SyntaxError, "Expected '=' (after '!' as '!=')"), p))
    else if c == '\'' then
      match StringBody(text, i + 1)
      case None => Fail(LexError(Error(SyntaxError, "Mismatched `'` in string literal"), p))
      case Some((s, e)) => Emit(Token(String, Text(s), p), e)
    else Fail(LexError(Error(IllegalCharacterError, "Found unexpected '" + [c] + "'"), p))
  }

  /** The token stream `Lexer::MakeTokens` produces from index `i` on: spaces and tabs are
      skipped, newlines and semicolons separate statements, and a single `Eof` token ends
      a successful run. */
  function Lex(text: string, i: nat): Result<seq<Token>, LexError>
    requires i <= |text|
    decreases |text| - i
  {
    if i == |text| then Ok([Token(Eof, NoValue, PosAt(text, i))])
    else match LexStep(text, i)
      case Skip(n) => Lex(text, n)
      case Emit(t, n) => Prefixed([t], Lex(text, n))
      case Fail(e) => Err(e)
  }

  // ---------------------------------------------------------------------------------
  // Properties of the token stream
  // ---------------------------------------------------------------------------------

  /** A successful run ends with exactly one `Eof` token, and nothing else is `Eof`. */
  lemma {:induction false} LexEndsWithEof(text: string, i: nat)
    requires i <= |text|
    ensures Lex(text, i).Ok? ==>
              var ts := Lex(text, i).value;
              |ts| >= 1 && ts[|ts| - 1].kind == Eof &&
              forall k :: 0 <= k < |ts| - 1 ==> ts[k].kind != Eof
    decreases |text| - i
  {
    if i < |text| {
      var st := LexStep(text, i);
      if !st.Fail? {
        LexEndsWithEof(text, st.next);
        if st.Emit? && Lex(text, st.next).Ok? {
          var rest := Lex(text, st.next).value;
          assert Lex(text, i) == Ok([st.tok] + rest);
        }
      }
    }
  }

  predicate IsIdentifierText(w: string) {
    |w| > 0 && (IsLetter(w[0]) || w[0] == '_') && forall k :: 0 <= k < |w| ==> IsIdentChar(w[k])
  }

  lemma {:induction false} IdentEndAll(text: string, i: nat)
    requires i <= |text|
    requires forall k :: i <= k < |text| ==> IsIdentChar(text[k])
    ensures IdentEnd(text, i) == |text|
    decreases |text| - i
  {
    if i < |text| {
      IdentEndAll(text, i + 1);
    }
  }

  /** A word made of letters, digits and underscores, not starting with a digit, lexes to
      one token: a `Keyword` exactly when it is one of the nineteen keywords, an
      `Identifier` otherwise. */
  lemma LexWord(w: string)
    requires IsIdentifierText(w)
    ensures Lex(w, 0) == Ok([Token(if IsKeyword(w) then Keyword else Identifier, Text(w), PosAt(w, 0)),
                             Token(Eof, NoValue, PosAt(w, |w|))])
  {
    IdentEndAll(w, 0);
    assert w[0..|w|] == w;
    var c := w[0];
    assert c != ' ' && c != '\t' && c != '\n' && c != ';' && !IsDigit(c) && (IsLetter(c) || c == '_');
    var tok := Token(if IsKeyword(w) then Keyword else Identifier, Text(w), PosAt(w, 0));
    assert LexStep(w, 0) == Emit(tok, |w|);
    LexOneToken(w, tok);
  }

  /** A number lexeme ends where the next character can no longer extend it. */
  lemma NumberEndStop(text: string, i: nat, seenDot: bool)
    requires i <= |text|
    requires i == |text| || !(IsDigit(text[i]) || (text[i] == '.' && !seenDot))
    ensures NumberEnd(text, i, seenDot) == i
  {
  }

  /** One character of a string literal's body consumed, with `content` read so far and
      `escaped` telling whether a backslash came just before. */
  lemma StringBodyAdvance(text: string, i: nat, content: string, escaped: bool)
    requires i < |text| && (text[i] != '\'' || escaped)
    ensures PrependBody(content, if escaped then EscapedBody(text, i) else StringBody(text, i)) ==
              if escaped then PrependBody(content + [Unescape(text[i])], StringBody(text, i + 1))
              else if text[i] == '\\' then PrependBody(content, EscapedBody(text, i + 1))
              else PrependBody(content + [text[i]], StringBody(text, i + 1))
  {
    if escaped {
      PrependBodyAssoc(content, [Unescape(text[i])], StringBody(text, i + 1));
    } else if text[i] != '\\' {
      PrependBodyAssoc(content, [text[i]], StringBody(text, i + 1));
    }
  }

  /** The body ends at the end of the text (no literal) or at an unescaped quote. */
  lemma StringBodyExit(text: string, i: nat, content: string, escaped: bool)
    requires i <= |text| && (i == |text| || (text[i] == '\'' && !escaped))
    ensures PrependBody(content, if escaped then EscapedBody(text, i) else StringBody(text, i)) ==
              if i == |text| then None else Some((content, i + 1))
  {
    assert content + "" == content;
  }

  /** One character of a number literal consumed: the lexeme grows by it, and the end of
      the literal is unchanged. */
  lemma NumberCharStep(text: string, start: nat, i: nat, seenDot: bool)
    requires start <= i < |text| && (IsDigit(text[i]) || (text[i] == '.' && !seenDot))
    ensures text[start..i] + [text[i]] == text[start..i + 1]
    ensures text[i] == '.' ==> text[start..i] + "." == text[start..i + 1]
    ensures NumberEnd(text, i + 1, seenDot || text[i] == '.') == NumberEnd(text, i, seenDot)
  {
  }

  /** One character added to a lexeme: the slice grows by it. */
  lemma LexemeStep(text: string, start: nat, i: nat)
    requires start <= i < |text|
    ensures text[start..i] + [text[i]] == text[start..i + 1]
  {
  }

  /** A text whose first step emits a token and reaches the end lexes to that token and
      `Eof`. */
  lemma LexOneToken(t: string, tok: Token)
    requires |t| > 0 && LexStep(t, 0) == Emit(tok, |t|)
    ensures Lex(t, 0) == Ok([tok, Token(Eof, NoValue, PosAt(t, |t|))])
  {
    var eof := Token(Eof, NoValue, PosAt(t, |t|));
    assert Lex(t, |t|) == Ok([eof]);
    assert Lex(t, 0) == Prefixed([tok], Lex(t, |t|));
    assert [tok] + [eof] == [tok, eof];
  }

  lemma {:induction false} NumberEndDigits(text: string, i: nat, seenDot: bool)
    requires i <= |text|
    requires forall k :: i <= k < |text| ==> IsDigit(text[k])
    ensures NumberEnd(text, i, seenDot) == |text|
    decreases |text| - i
  {
    if i < |text| {
      NumberEndDigits(text, i + 1, seenDot);
    }
  }

  lemma {:induction false} DecimalDigits(n: nat)
    ensures |Decimal(n)| > 0
    ensures forall k :: 0 <= k < |Decimal(n)| ==> IsDigit(Decimal(n)[k])
    ensures DigitsValue(Decimal(n)) == n
  {
    var s := Decimal(n);
    if n < 10 {
      DigitCharValue(n);
      assert s[..0] == [];
    } else {
      DecimalDigits(n / 10);
      DigitCharValue(n % 10);
      var t := Decimal(n / 10);
      assert s == t + [DigitChar(n % 10)];
      assert s[..|s| - 1] == t;
      assert DigitsValue(s) == DigitsValue(t) * 10 + n % 10;
    }
  }

  /** `DigitChar` gives the digit whose value is `d`. */
  lemma DigitCharValue(d: int)
    requires 0 <= d < 10
    ensures IsDigit(DigitChar(d)) && DigitChar(d) as int - '0' as int == d
  {
  }

  /** The decimal text of a non-negative integer lexes to one `Int` token holding that
      integer, clamped at `LONG_MAX`. */
  lemma LexDecimal(n: nat)
    ensures Lex(Decimal(n), 0) ==
              Ok([Token(TokenType.Int, IntValue(if n > LongMax then LongMax else n), PosAt(Decimal(n), 0)),
                  Token(Eof, NoValue, PosAt(Decimal(n), |Decimal(n)|))])
  {
    var s := Decimal(n);
    DecimalDigits(n);
    NumberEndDigits(s, 0, false);
    assert s[0..|s|] == s;
    assert forall k :: 0 <= k < |s| ==> s[k] != '.';
    assert '.' !in s;
    var tok := Token(TokenType.Int, IntValue(if n > LongMax then LongMax else n), PosAt(s, 0));
    assert NumberToken(s, PosAt(s, 0)) == tok;
    assert IsDigit(s[0]) && s[0] != ' ' && s[0] != '\t' && s[0] != '\n' && s[0] != ';';
    assert LexStep(s, 0) == Emit(tok, |s|);
    LexOneToken(s, tok);
  }

  // ---------------------------------------------------------------------------------
  // String literals and their representation
  // ---------------------------------------------------------------------------------

  /** `REVERSED_ESCAPE_CHARACTERS`, completed with the backslash. */
  function EscapeChar(c: char): string {
    match c
    case '\n' => "\\n"
    case '\t' => "\\t"
    case '\U{8}' => "\\b"
    case '\r' => "\\r"
    case '\'' => "\\'"
    case '\\' => "\\\\"
    case _ => [c]
  }

  /** The body of a string literal that reads back as `s`. */
  function Escape(s: string): string {
    if s == [] then "" else EscapeChar(s[0]) + Escape(s[1..])
  }

  /** `String::Representation` AS WRITTEN (yan-lang.hpp:3301-3318): its table has no entry
      for the backslash, which is copied unescaped. */
  function RepresentationAsWritten(s: string): string {
    "'" + EscapeAsWritten(s) + "'"
  }

  function EscapeAsWritten(s: string): string {
    if s == [] then ""
    else (if s[0] == '\\' then [s[0]] else EscapeChar(s[0])) + EscapeAsWritten(s[1..])
  }

  /** `String::Representation` with the backslash escaped: a quoted literal. */
  function Representation(s: string): string {
    "'" + Escape(s) + "'"
  }

  /** Each escaped character is either itself, when it needs no escape, or a backslash
      followed by a character that `Unescape` maps back to it. */
  lemma EscapeCharShape(c: char)
    ensures |EscapeChar(c)| == 1 ==> EscapeChar(c) == [c] && c != '\'' && c != '\\'
    ensures |EscapeChar(c)| != 1 ==> |EscapeChar(c)| == 2 && EscapeChar(c)[0] == '\\' && Unescape(EscapeChar(c)[1]) == c
  {
  }

  /** A slice that spells `a + b` spells `a`, then `b`. */
  lemma SliceOfConcat(text: string, i: nat, j: nat, a: string, b: string)
    requires j == i + |a| + |b| && j <= |text| && text[i..j] == a + b
    ensures text[i..i + |a|] == a && text[i + |a|..j] == b
  {
    assert text[i..i + |a|] == text[i..j][..|a|];
    assert text[i + |a|..j] == text[i..j][|a|..];
  }

  /** Reading one escaped character from the body of a literal, followed by the rest. */
  lemma StringBodyStep(text: string, i: nat, c: char, rest: string, e: nat)
    requires i + |EscapeChar(c)| <= |text| && text[i..i + |EscapeChar(c)|] == EscapeChar(c)
    requires StringBody(text, i + |EscapeChar(c)|) == Some((rest, e))
    ensures StringBody(text, i) == Some(([c] + rest, e))
  {
    var h := EscapeChar(c);
    EscapeCharShape(c);
    assert text[i] == h[0];
    if |h| != 1 {
      assert text[i + 1] == h[1];
      assert StringBody(text, i) == EscapedBody(text, i + 1);
    }
  }

  lemma {:induction false} StringBodyOfEscape(text: string, i: nat, s: string, e: nat)
    requires e == i + |Escape(s)| + 1 && e <= |text|
    requires text[i..e - 1] == Escape(s) && text[e - 1] == '\''
    ensures StringBody(text, i) == Some((s, e))
    decreases |s|
  {
    if s == [] {
      assert Escape(s) == "";
      assert text[i] == '\'';
    } else {
      var h := EscapeChar(s[0]);
      var rest := Escape(s[1..]);
      assert Escape(s) == h + rest;
      SliceOfConcat(text, i, e - 1, h, rest);
      StringBodyOfEscape(text, i + |h|, s[1..], e);
      StringBodyStep(text, i, s[0], s[1..], e);
      assert [s[0]] + s[1..] == s;
    }
  }

  /** Lexing the representation of any string gives back exactly that string. */
  lemma LexRepresentation(s: string)
    ensures var t := Representation(s);
            Lex(t, 0) == Ok([Token(String, Text(s), PosAt(t, 0)), Token(Eof, NoValue, PosAt(t, |t|))])
  {
    var t := Representation(s);
    assert t[1..1 + |Escape(s)|] == Escape(s);
    StringBodyOfEscape(t, 1, s, |t|);
    assert LexStep(t, 0) == Emit(Token(String, Text(s), PosAt(t, 0)), |t|);
    LexOneToken(t, Token(String, Text(s), PosAt(t, 0)));
  }

  /** The representation as written does not read back: the two characters `\` `n` are
      printed as `'\n'`, which the lexer reads as a newline. */
  lemma RepresentationAsWrittenMisreads()
    ensures var t := RepresentationAsWritten("\\n");
            Lex(t, 0) == Ok([Token(String, Text("\n"), PosAt(t, 0)), Token(Eof, NoValue, PosAt(t, |t|))])
  {
    var t := RepresentationAsWritten("\\n");
    assert EscapeAsWritten("n") == "n" by {
      assert EscapeAsWritten("n"[1..]) == "";
    }
    assert EscapeAsWritten("\\n") == "\\n" by {
      assert "\\n"[1..] == "n";
    }
    assert t == ['\'', '\\', 'n', '\''];
    assert StringBody(t, 3) == Some(("", 4));
    assert Unescape(t[2]) == '\n' && ['\n'] + "" == "\n";
    assert EscapedBody(t, 2) == Some(("\n", 4));
    assert StringBody(t, 1) == Some(("\n", 4));
    assert LexStep(t, 0) == Emit(Token(String, Text("\n"), PosAt(t, 0)), 4);
    LexOneToken(t, Token(String, Text("\n"), PosAt(t, 0)));
  }

  // ---------------------------------------------------------------------------------
  // The lexer object
  // ---------------------------------------------------------------------------------

  /** `Lexer`: the text, the current position and the character under it. */
  class Lexer {
    const text: string
    var pos: Position
    var currentChar: Option<char>

    /** The position and the current character agree with the text. */
    predicate Valid()
      reads this
    {
      0 <= pos.index && pos == PosAt(text, pos.index) && currentChar == CharAt(text, pos.index)
    }

    /** `Lexer::Lexer`: starts at (-1, 0, -1) and advances onto the first character. */
    constructor (text: string)
      ensures this.text == text && Valid() && pos.index == 0
    {
      this.text := text;
      pos := Position(-1, 0, -1);
      currentChar := None;
      new;
      Advance();
      StartPosition(text);
    }

    /** `Lexer::Advance`. */
    method Advance()
      modifies this
      ensures pos == AdvancePosition(old(pos), old(currentChar))
      ensures currentChar == CharAt(text, pos.index)
      ensures old(Valid()) ==> Valid()
    {
      if Valid() {
        AdvancePosAt(text, pos.index);
      }
      pos := AdvancePosition(pos, currentChar);
      currentChar := CharAt(text, pos.index);
    }

    /** `Lexer::MakeNumber`. */
    method MakeNumber() returns (tok: Token)
      requires Valid() && currentChar.Some? && IsDigit(currentChar.value)
      modifies this
      ensures Valid() && old(pos.index) < pos.index <= |text|
      ensures pos.index == NumberEnd(text, old(pos.index), false)
      ensures tok == NumberToken(text[old(pos.index)..pos.index], old(pos))
    {
      var numberString := "";
      var dots := 0;
      var posStart := pos;
      while currentChar.Some? && (IsDigit(currentChar.value) || currentChar.value == '.')
        invariant Valid() && posStart.index <= pos.index <= |text|
        invariant numberString == text[posStart.index..pos.index]
        invariant dots == 0 || dots == 1
        invariant NumberEnd(text, pos.index, dots == 1) == NumberEnd(text, posStart.index, false)
        decreases |text| - pos.index
      {
        ghost var i := pos.index;
        assert currentChar.value == text[i];
        if currentChar.value == '.' {
          if dots == 1 {
            NumberEndStop(text, i, true);
            break;
          }
          NumberCharStep(text, posStart.index, i, false);
          dots := dots + 1;
          numberString := numberString + ".";
        } else {
          NumberCharStep(text, posStart.index, i, dots == 1);
          numberString := numberString + [currentChar.value];
        }
        assert numberString == text[posStart.index..i + 1];
        Advance();
      }
      if !(currentChar.Some? && (IsDigit(currentChar.value) || currentChar.value == '.')) {
        NumberEndStop(text, pos.index, dots == 1);
      }
      tok := NumberToken(numberString, posStart);
    }

    /** `Lexer::MakeIdentifier`: a keyword or an identifier. */
    method MakeIdentifier() returns (tok: Token)
      requires Valid() && currentChar.Some? && (IsLetter(currentChar.value) || currentChar.value == '_')
      modifies this
      ensures Valid() && old(pos.index) < pos.index <= |text|
      ensures pos.index == IdentEnd(text, old(pos.index))
      ensures var w := text[old(pos.index)..pos.index];
              tok == Token(if IsKeyword(w) then Keyword else Identifier, Text(w), old(pos))
    {
      var identifier := "";
      var posStart := pos;
      while currentChar.Some? && IsIdentChar(currentChar.value)
        invariant Valid() && posStart.index <= pos.index <= |text|
        invariant identifier == text[posStart.index..pos.index]
        invariant IdentEnd(text, pos.index) == IdentEnd(text, posStart.index)
        decreases |text| - pos.index
      {
        ghost var i := pos.index;
        assert currentChar.value == text[i];
        LexemeStep(text, posStart.index, i);
        identifier := identifier + [currentChar.value];
        assert identifier == text[posStart.index..i + 1];
        Advance();
      }
      var isKeyword := IsKeyword(identifier);
      tok := Token(if isKeyword then Keyword else Identifier, Text(identifier), posStart);
    }

    /** `MakeEquals`, `MakeLtToken`, `MakeGtToken` and `MakeMinusOrArrowToken`: the
        two-character token when `next` follows, the one-character token otherwise. */
    method MakeTwoCharToken(one: TokenType, next: char, two: TokenType) returns (tok: Token)
      requires Valid() && currentChar.Some?
      modifies this
      ensures Valid()
      ensures CharAt(text, old(pos.index) + 1) == Some(next) ==>
                pos.index == old(pos.index) + 2 && tok == Token(two, NoValue, old(pos))
      ensures CharAt(text, old(pos.index) + 1) != Some(next) ==>
                pos.index == old(pos.index) + 1 && tok == Token(one, NoValue, old(pos))
    {
      var posStart := pos;
      var tt := one;
      Advance();
      if currentChar == Some(next) {
        Advance();
        tt := two;
      }
      tok := Token(tt, NoValue, posStart);
    }

    /** `Lexer::MakeNeqToken`: `!` must be followed by `=`. */
    method MakeNotEqualToken() returns (r: Result<Token, LexError>)
      requires Valid() && currentChar == Some('!')
      modifies this
      ensures Valid() && pos.index == old(pos.index) + 2
      ensures CharAt(text, old(pos.index) + 1) == Some('=') ==> r == Ok(Token(NotEqual, NoValue, old(pos)))
      ensures CharAt(text, old(pos.index) + 1) != Some('=') ==>
                r == Err(LexError(Error(SyntaxError, "Expected '=' (after '!' as '!=')"), old(pos)))
    {
      var posStart := pos;
      Advance();
      if currentChar == Some('=') {
        Advance();
        return Ok(Token(NotEqual, NoValue, posStart));
      }
      Advance();
      r := Err(LexError(Error(SyntaxError, "Expected '=' (after '!' as '!=')"), posStart));
    }

    /** `Lexer::MakeString`: `None` stands for the source's `Invilid` token, returned
        when the text ends before the closing quote. */
    method MakeString() returns (tok: Option<Token>)
      requires Valid() && currentChar == Some('\'')
      modifies this
      ensures Valid()
      ensures StringBody(text, old(pos.index) + 1).None? ==> tok.None?
      ensures StringBody(text, old(pos.index) + 1).Some? ==>
                tok == Some(Token(String, Text(StringBody(text, old(pos.index) + 1).value.0), old(pos))) &&
                pos.index == StringBody(text, old(pos.index) + 1).value.1
    {
      var posStart := pos;
      Advance();
      if currentChar.None? {
        return None;
      }
      var content, escaped := ReadStringBody();
      StringBodyExit(text, pos.index, content, escaped);
      if (escaped && |content| == 0) || currentChar.None? {
        return None;
      }
      assert StringBody(text, posStart.index + 1) == Some((content, pos.index + 1));
      Advance();
      tok := Some(Token(String, Text(content), posStart));
    }

    /** The loop of `Lexer::MakeString`: reads the body of the literal up to the end of
        the text or an unescaped quote; `escaped` tells whether a backslash was read last. */
    method ReadStringBody() returns (content: string, escaped: bool)
      requires Valid() && pos.index <= |text|
      modifies this
      ensures Valid() && old(pos.index) <= pos.index <= |text|
      ensures pos.index == |text| || (text[pos.index] == '\'' && !escaped)
      ensures StringBody(text, old(pos.index)) ==
                PrependBody(content, if escaped then EscapedBody(text, pos.index) else StringBody(text, pos.index))
    {
      ghost var start := pos.index;
      content := "";
      escaped := false;
      PrependBodyAssoc("", "", StringBody(text, pos.index));
      while currentChar.Some? && (currentChar.value != '\'' || escaped)
        invariant Valid() && start <= pos.index <= |text|
        invariant StringBody(text, start) ==
                    PrependBody(content, if escaped then EscapedBody(text, pos.index) else StringBody(text, pos.index))
        decreases |text| - pos.index
      {
        ghost var i := pos.index;
        ghost var body := StringBody(text, start);
        StringBodyAdvance(text, i, content, escaped);
        if escaped {
          content := content + [Unescape(currentChar.value)];
        } else {
          if currentChar.value == '\\' {
            escaped := true;
            assert body == PrependBody(content, EscapedBody(text, i + 1));
            Advance();
            continue;
          } else {
            content := content + [currentChar.value];
          }
        }
        assert body == PrependBody(content, StringBody(text, i + 1));
        Advance();
        escaped := false;
      }
    }

    /** One pass of the dispatch in `Lexer::MakeTokens`: the token, if any, that the
        current character starts, with the lexer moved past it. */
    method NextStep() returns (st: Step)
      requires Valid() && pos.index < |text|
      modifies this
      ensures Valid() && st == LexStep(text, old(pos.index))
      ensures !st.Fail? ==> pos.index == st.next
    {
      var c := currentChar.value;
      if c == ' ' || c == '\t' {
        Advance();
        st := Skip(pos.index);
      } else if c == '\n' || c == ';' {
        var tok := Token(NewLine, NoValue, pos);
        Advance();
        st := Emit(tok, pos.index);
      } else if IsDigit(c) {
        var tok := MakeNumber();
        st := Emit(tok, pos.index);
      } else if IsLetter(c) || c == '_' {
        var tok := MakeIdentifier();
        st := Emit(tok, pos.index);
      } else if SingleCharKind(c).Some? {
        var tok := Token(SingleCharKind(c).value, NoValue, pos);
        Advance();
        st := Emit(tok, pos.index);
      } else if TwoCharKind(c).Some? {
        var (one, next, two) := TwoCharKind(c).value;
        var tok := MakeTwoCharToken(one, next, two);
        st := Emit(tok, pos.index);
      } else if c == '!' {
        var tok := MakeNotEqualToken();
        if tok.Err? {
          return Fail(tok.error);
        }
        st := Emit(tok.value, pos.index);
      } else if c == '\'' {
        var errorPos := pos;
        var tok := MakeString();
        if tok.None? {
          return Fail(LexError(Error(SyntaxError, "Mismatched `'` in string literal"), errorPos));
        }
        st := Emit(tok.value, pos.index);
      } else {
        st := Fail(LexError(Error(IllegalCharacterError, "Found unexpected '" + [c] + "'"), pos));
      }
    }

    /** `Lexer::MakeTokens`: the token stream of the rest of the text, as `Lex` defines
        it, or the first lexing error. */
    method MakeTokens() returns (r: Result<seq<Token>, LexError>)
      requires Valid() && pos.index <= |text|
      modifies this
      ensures r == Lex(text, old(pos.index))
    {
      var tokens: seq<Token> := [];
      assert Prefixed(tokens, Lex(text, pos.index)) == Lex(text, pos.index) by {
        if Lex(text, pos.index).Ok? {
          assert [] + Lex(text, pos.index).value == Lex(text, pos.index).value;
        }
      }
      while currentChar.Some?
        invariant Valid() && old(pos.index) <= pos.index <= |text|
        invariant Lex(text, old(pos.index)) == Prefixed(tokens, Lex(text, pos.index))
        decreases |text| - pos.index
      {
        var st := NextStep();
        match st
        case Skip(_) =>
        case Emit(tok, n) =>
          PrefixedAssoc(tokens, [tok], Lex(text, n));
          tokens := tokens + [tok];
        case Fail(e) =>
          return Err(e);
      }
      r := Ok(tokens + [Token(Eof, NoValue, pos)]);
    }
  }

  lemma PrefixedAssoc(a: seq<Token>, b: seq<Token>, r: Result<seq<Token>, LexError>)
    ensures Prefixed(a, Prefixed(b, r)) == Prefixed(a + b, r)
  {
    match r
    case Ok(x) => assert a + (b + x) == (a + b) + x;
    case Err(_) =>
  }

  /** Lexing a whole source text, as the interpreter and the translator do. */
  method Tokenize(text: string) returns (r: Result<seq<Token>, LexError>)
    ensures r == Lex(text, 0)
  {
    var lexer := new Lexer(text);
    r := lexer.MakeTokens();
  }
}
