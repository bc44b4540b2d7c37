/** The tokenizer of lexer/lexer.go: a byte-at-a-time scanner over the source text (one
    `char` per byte) with one byte of lookahead. Its state is the position of the current
    byte; reading past the end, like reading a NUL byte, yields the byte 0. */
module Lexer {
  import opened Wrappers
  import opened Tokens
  import Decimal

  const Nul: char := 0 as char

  /** The byte at `i`, or 0 past the end of the input. */
  function Ch(input: string, i: nat): char {
    if i < |input| then input[i] else Nul
  }

  predicate IsLetter(c: char) {
    'a' <= c <= 'z' || 'A' <= c <= 'Z' || c == '_'
  }

  predicate IsDigit(c: char) {
    Decimal.IsDigit(c)
  }

  predicate IsSpace(c: char) {
    c == ' ' || c == '\t' || c == '\r' || c == '\n'
  }

  /** Characters that may begin a token; any other character is fatal. */
  predicate StartsToken(c: char) {
    OneCharKind(c).Some? || c in {'"', '\n', Nul} || IsLetter(c) || IsDigit(c)
  }

  /** The kind of a token one character long (the `newToken` cases). */
  function OneCharKind(c: char): Option<Kind> {
    match c
    case '=' => Some(Assign)
    case '+' => Some(Plus)
    case '-' => Some(Minus)
    case '*' => Some(Star)
    case '/' => Some(Slash)
    case '!' => Some(Bang)
    case '<' => Some(Lt)
    case '>' => Some(Gt)
    case '{' => Some(LSqb)
    case '}' => Some(RSqb)
    case '(' => Some(LPar)
    case ')' => Some(RPar)
    case '[' => Some(LBr)
    case ']' => Some(RBr)
    case ',' => Some(Comma)
    case ':' => Some(Colon)
    case _ => None
  }

  /** The kind of a two-character operator spelled `c` then `d`, if there is one. */
  function TwoCharKind(c: char, d: char): Option<Kind> {
    if [c, d] == "==" then Some(Eq)
    else if [c, d] == "+=" then Some(PlusAssign)
    else if [c, d] == "-=" then Some(MinusAssign)
    else if [c, d] == "*=" then Some(TimesAssign)
    else if [c, d] == "**" then Some(DoubleStar)
    else if [c, d] == "/=" then Some(DivAssign)
    else if [c, d] == "!=" then Some(NotEq)
    else if [c, d] == "<=" then Some(LessEq)
    else if [c, d] == ">=" then Some(GreaterEq)
    else None
  }

  /** `omitSymbol`: the position of the first byte at or after `i` that is not a space, tab,
      carriage return or newline. */
  function SkipSpace(input: string, i: nat): (j: nat)
    ensures i <= j && !IsSpace(Ch(input, j))
    ensures forall k :: i <= k < j ==> IsSpace(Ch(input, k))
    ensures i <= |input| ==> j <= |input|
    ensures i > |input| ==> j == i
    decreases |input| - i
  {
    if IsSpace(Ch(input, i)) then SkipSpace(input, i + 1) else i
  }

  /** `readIdent`: the end of the run of letters starting at `i`. */
  function LetterRunEnd(input: string, i: nat): (j: nat)
    ensures i <= j && !IsLetter(Ch(input, j))
    ensures forall k :: i <= k < j ==> IsLetter(Ch(input, k))
    ensures i <= |input| ==> j <= |input|
    decreases |input| - i
  {
    if IsLetter(Ch(input, i)) then LetterRunEnd(input, i + 1) else i
  }

  /** `readString`: the position of the first `"`, newline or 0 byte at or after `i`. */
  function StringEnd(input: string, i: nat): (j: nat)
    requires i <= |input|
    ensures i <= j <= |input|
    ensures Ch(input, j) in {'"', '\n', Nul}
    ensures forall k :: i <= k < j ==> input[k] !in {'"', '\n', Nul}
    decreases |input| - i
  {
    if Ch(input, i) in {'"', '\n', Nul} then i else StringEnd(input, i + 1)
  }

  /** `readNumber` from position `i`: digits and dots are consumed; a dot seen after an
      earlier dot is consumed and then ends the number. Returns the end and whether a dot
      was consumed. */
  function NumberEnd(input: string, i: nat, seenDot: bool): (r: (nat, bool))
    requires i <= |input|
    ensures i <= r.0 <= |input|
    ensures forall k :: i <= k < r.0 ==> IsDigit(input[k]) || input[k] == '.'
    ensures r.1 <==> seenDot || exists k :: i <= k < r.0 && input[k] == '.'
    ensures seenDot ==> forall k :: i <= k < r.0 && input[k] == '.' ==> k == r.0 - 1
    ensures forall k1, k2 :: i <= k1 < k2 < r.0 && input[k1] == '.' && input[k2] == '.' ==>
              k2 == r.0 - 1
    ensures (!IsDigit(Ch(input, r.0)) && Ch(input, r.0) != '.')
            || (i < r.0 && input[r.0 - 1] == '.' &&
                (seenDot || exists k :: i <= k < r.0 - 1 && input[k] == '.'))
    decreases |input| - i
  {
    var c := Ch(input, i);
    if IsDigit(c) then NumberEnd(input, i + 1, seenDot)
    else if c == '.' then
      if seenDot then (i + 1, true) else NumberEnd(input, i + 1, true)
    else (i, seenDot)
  }

  datatype Scan =
    | Scanned(tok: Token, next: nat)
    | Illegal(ch: char)   // the Go code panics on a character no token starts with

  /** `NextToken`: skips blanks, then reads one token starting at `TokenStart(input, pos)`;
      `next` is the position of the lexer's current byte afterwards. */
  function NextToken(input: string, pos: nat): (r: Scan)
    ensures var p := TokenStart(input, pos);
            && (r.Illegal? <==> !StartsToken(Ch(input, p)))
            && (r.Illegal? ==> r.ch == Ch(input, p))
            && (r.Scanned? ==> pos <= p < r.next)
            && (r.Scanned? && pos <= |input| ==> r.next <= |input| + 1)
            && (r.Scanned? ==> r.tok.kind != Newl)
            && (r.Scanned? ==> (r.tok.kind == Eof <==> Ch(input, p) == Nul))
            && (r.Scanned? && r.tok.kind == Eof ==> r.tok.literal == "" && r.next == p + 1)
            && (r.Scanned? && r.tok.kind != Eof && r.tok.kind != Str ==>
                  r.next <= |input| && r.tok.literal == input[p..r.next])
  {
    ScanAt(input, TokenStart(input, pos))
  }

  /** The only token of kind ASSIGN is the one-character `=`: no two-character operator,
      keyword or literal has that kind. */
  lemma AssignIsEquals(input: string, pos: nat)
    ensures var r := NextToken(input, pos);
            r.Scanned? && r.tok.kind == Assign ==> r.tok.literal == "="
  {
    var p := TokenStart(input, pos);
    var c := Ch(input, p);
    if OneCharKind(c).Some? {
      assert ScanAt(input, p) == ScanOperator(input, p);
    }
  }

  /** Where the token read from `pos` starts: after the skipped blanks. */
  function TokenStart(input: string, pos: nat): (p: nat)
    ensures pos <= p && !IsSpace(Ch(input, p))
    ensures forall k :: pos <= k < p ==> IsSpace(Ch(input, k))
    ensures pos <= |input| ==> p <= |input|
    ensures pos > |input| ==> p == pos
  {
    SkipSpace(input, pos)
  }

  /** The `switch` of `NextToken` on the current byte. A newline has a case of its own,
      but `NextToken` never reaches it because blanks, newlines included, are skipped first. */
  function ScanAt(input: string, p: nat): (r: Scan)
    ensures r.Illegal? <==> !StartsToken(Ch(input, p))
    ensures r.Illegal? ==> r.ch == Ch(input, p)
    ensures r.Scanned? ==> p < r.next
    ensures r.Scanned? && p <= |input| ==> r.next <= |input| + 1
    ensures r.Scanned? ==> (r.tok.kind == Newl <==> Ch(input, p) == '\n')
    ensures r.Scanned? ==> (r.tok.kind == Eof <==> Ch(input, p) == Nul)
    ensures r.Scanned? && r.tok.kind == Eof ==> r.tok.literal == "" && r.next == p + 1
    ensures r.Scanned? && r.tok.kind != Eof && r.tok.kind != Str ==>
              r.next <= |input| && r.tok.literal == input[p..r.next]
  {
    var c := Ch(input, p);
    if OneCharKind(c).Some? then ScanOperator(input, p)
    else if c == '"' then ScanString(input, p)
    else if c == '\n' then Scanned(Token(Newl, "\n"), p + 1)
    else if c == Nul then Scanned(Token(Eof, ""), p + 1)
    else if IsLetter(c) then ScanName(input, p)
    else if IsDigit(c) then ScanNumber(input, p)
    else Illegal(c)
  }

  /** Operators and delimiters: a two-character operator when the lookahead byte completes
      one, otherwise the one-character token whose literal is that character. */
  function ScanOperator(input: string, p: nat): (r: Scan)
    requires OneCharKind(Ch(input, p)).Some?
    ensures var c, d := Ch(input, p), Ch(input, p + 1);
            if TwoCharKind(c, d).Some?
            then r == Scanned(Token(TwoCharKind(c, d).value, [c, d]), p + 2)
            else r == Scanned(Token(OneCharKind(c).value, [c]), p + 1)
    ensures r.Scanned? && r.next <= |input| && r.tok.literal == input[p..r.next]
    ensures r.tok.kind !in {Eof, Newl, Str}
  {
    var c := Ch(input, p);
    var d := Ch(input, p + 1);
    if c == '=' then
      if d == '=' then Scanned(Token(Eq, "=="), p + 2) else Scanned(Token(Assign, "="), p + 1)
    else if c == '+' then
      if d == '=' then Scanned(Token(PlusAssign, "+="), p + 2) else Scanned(Token(Plus, "+"), p + 1)
    else if c == '-' then
      if d == '=' then Scanned(Token(MinusAssign, "-="), p + 2) else Scanned(Token(Minus, "-"), p + 1)
    else if c == '*' then
      if d == '=' then Scanned(Token(TimesAssign, "*="), p + 2)
      else if d == '*' then Scanned(Token(DoubleStar, "**"), p + 2)
      else Scanned(Token(Star, "*"), p + 1)
    else if c == '/' then
      if d == '=' then Scanned(Token(DivAssign, "/="), p + 2) else Scanned(Token(Slash, "/"), p + 1)
    else if c == '!' then
      if d == '=' then Scanned(Token(NotEq, "!="), p + 2) else Scanned(Token(Bang, "!"), p + 1)
    else if c == '<' then
      if d == '=' then Scanned(Token(LessEq, "<="), p + 2) else Scanned(Token(Lt, "<"), p + 1)
    else if c == '>' then
      if d == '=' then Scanned(Token(GreaterEq, ">="), p + 2) else Scanned(Token(Gt, ">"), p + 1)
    else if c == '{' then Scanned(Token(LSqb, "{"), p + 1)
    else if c == '}' then Scanned(Token(RSqb, "}"), p + 1)
    else if c == '(' then Scanned(Token(LPar, "("), p + 1)
    else if c == ')' then Scanned(Token(RPar, ")"), p + 1)
    else if c == '[' then Scanned(Token(LBr, "["), p + 1)
    else if c == ']' then Scanned(Token(RBr, "]"), p + 1)
    else if c == ',' then Scanned(Token(Comma, ","), p + 1)
    else Scanned(Token(Colon, ":"), p + 1)
  }

  /** A string token: the text after the opening quote up to the first `"`, newline or 0 byte
      (or the end); the terminator is consumed too. */
  function ScanString(input: string, p: nat): (r: Scan)
    requires Ch(input, p) == '"'
    ensures r.Scanned? && r.tok.kind == Str
    ensures p + 1 < r.next <= |input| + 1
    ensures r.tok.literal == input[p + 1..r.next - 1]
    ensures Ch(input, r.next - 1) in {'"', '\n', Nul}
    ensures forall k :: 0 <= k < |r.tok.literal| ==> r.tok.literal[k] !in {'"', '\n', Nul}
  {
    var j := StringEnd(input, p + 1);
    Scanned(Token(Str, input[p + 1..j]), j + 1)
  }

  /** A name or keyword: the maximal run of letters, looked up in the keyword table. */
  function ScanName(input: string, p: nat): (r: Scan)
    requires IsLetter(Ch(input, p))
    ensures r.Scanned? && p < r.next <= |input|
    ensures r.tok.literal == input[p..r.next]
    ensures forall k :: 0 <= k < |r.tok.literal| ==> IsLetter(r.tok.literal[k])
    ensures !IsLetter(Ch(input, r.next))
    ensures r.tok.kind == LookupKeyword(r.tok.literal)
  {
    var j := LetterRunEnd(input, p);
    assert forall k :: 0 <= k < j - p ==> input[p..j][k] == Ch(input, p + k);
    Scanned(Token(LookupKeyword(input[p..j]), input[p..j]), j)
  }

  /** A number: digits and dots, FLOAT exactly when a dot was consumed. */
  function ScanNumber(input: string, p: nat): (r: Scan)
    requires IsDigit(Ch(input, p))
    ensures r.Scanned? && p < r.next <= |input|
    ensures r.tok.literal == input[p..r.next]
    ensures NumberShape(r.tok.literal)
    ensures r.tok.kind == (if '.' in r.tok.literal then Float else Int)
    ensures !ContinuesNumber(Ch(input, r.next)) || EndsWithSecondDot(r.tok.literal)
  {
    var (j, isFloat) := NumberEnd(input, p, false);
    var lit := input[p..j];
    assert forall k :: 0 <= k < |lit| ==> lit[k] == input[p + k];
    assert isFloat <==> '.' in lit by {
      if isFloat {
        var k :| p <= k < j && input[k] == '.';
        assert lit[k - p] == '.';
      }
    }
    assert !ContinuesNumber(Ch(input, j)) || EndsWithSecondDot(lit) by {
      if ContinuesNumber(Ch(input, j)) {
        var k :| p <= k < j - 1 && input[k] == '.';
        assert lit[k - p] == '.';
      }
    }
    Scanned(Token(if isFloat then Float else Int, lit), j)
  }

  predicate ContinuesNumber(c: char) {
    IsDigit(c) || c == '.'
  }

  /** The literals `readNumber` produces: a digit, then digits and dots, where a dot that
      follows an earlier dot is the last character. */
  predicate NumberShape(lit: string) {
    && |lit| >= 1 && IsDigit(lit[0])
    && (forall k :: 0 <= k < |lit| ==> ContinuesNumber(lit[k]))
    && (forall k1, k2 :: 0 <= k1 < k2 < |lit| && lit[k1] == '.' && lit[k2] == '.' ==>
          k2 == |lit| - 1)
  }

  /** The number ended because a second dot was consumed. */
  predicate EndsWithSecondDot(lit: string) {
    |lit| >= 1 && lit[|lit| - 1] == '.' && exists k :: 0 <= k < |lit| - 1 && lit[k] == '.'
  }
}

/** The token stream the parser pulls from the tokenizer, as far as the tokenizer gets. */
module TokenStream {
  import opened Wrappers
  import opened Tokens
  import opened Lexer

  /** What the lexer produces when it is asked for token after token: the tokens it returns,
      and the character it panics on if it meets one that starts no token. When `bad` is
      present, the panic happens on the request for token number `|toks|`. */
  datatype Lexed = Lexed(toks: seq<Token>, bad: Option<char>)

  /** A good token in front of good tokens. */
  lemma ConsKeepsTokens(tok: Token, toks: seq<Token>)
    requires tok.kind != Newl && (tok.kind == Assign ==> tok.literal == "=")
    requires forall i :: 0 <= i < |toks| ==> toks[i].kind != Newl
    requires forall i :: 0 <= i < |toks| && toks[i].kind == Assign ==> toks[i].literal == "="
    ensures forall i :: 0 <= i < |[tok] + toks| ==> ([tok] + toks)[i].kind != Newl
    ensures forall i :: 0 <= i < |[tok] + toks| && ([tok] + toks)[i].kind == Assign ==>
              ([tok] + toks)[i].literal == "="
  {
    forall i | 0 <= i < |[tok] + toks|
      ensures ([tok] + toks)[i].kind != Newl
      ensures ([tok] + toks)[i].kind == Assign ==> ([tok] + toks)[i].literal == "="
    {
      if i > 0 {
        assert ([tok] + toks)[i] == toks[i - 1];
      }
    }
  }

  /** The tokens read from `pos` on, up to and including the EOF read at the end of the input,
      or up to the first illegal character. A 0 byte inside the input yields an EOF token and
      scanning goes on after it, as the Go lexer does when it is asked for more tokens. */
  function TokenizeFrom(input: string, pos: nat): (r: Lexed)
    requires pos <= |input| + 1
    ensures r.bad.None? ==> |r.toks| >= 1 && r.toks[|r.toks| - 1] == Token(Eof, "")
    ensures r.bad.Some? ==> !StartsToken(r.bad.value) && r.bad.value in input
    ensures forall i :: 0 <= i < |r.toks| ==> r.toks[i].kind != Newl
    ensures forall i :: 0 <= i < |r.toks| && r.toks[i].kind == Assign ==> r.toks[i].literal == "="
    decreases |input| + 1 - pos
  {
    match NextToken(input, pos)
    case Illegal(c) =>
      assert c in input by {
        var p := TokenStart(input, pos);
        assert p < |input|;
        assert input[p] == c;
      }
      Lexed([], Some(c))
    case Scanned(tok, next) =>
      AssignIsEquals(input, pos);
      if tok.kind == Eof && next > |input| then Lexed([tok], None)
      else
        var rest := TokenizeFrom(input, next);
        ConsKeepsTokens(tok, rest.toks);
        Lexed([tok] + rest.toks, rest.bad)
  }

  /** The tokens of a whole source text. */
  function Tokenize(input: string): (r: Lexed)
    ensures r.bad.None? ==> |r.toks| >= 1 && r.toks[|r.toks| - 1] == Token(Eof, "")
    ensures r.bad.Some? ==> !StartsToken(r.bad.value) && r.bad.value in input
    ensures forall i :: 0 <= i < |r.toks| ==> r.toks[i].kind != Newl
    ensures forall i :: 0 <= i < |r.toks| && r.toks[i].kind == Assign ==> r.toks[i].literal == "="
  {
    TokenizeFrom(input, 0)
  }

  /** A text in which every character can start a token lexes without a panic. */
  lemma {:induction false} TokenizeFromClean(input: string, pos: nat)
    requires pos <= |input| + 1
    requires forall k :: pos <= k < |input| ==> StartsToken(input[k]) || IsSpace(input[k])
    ensures TokenizeFrom(input, pos).bad.None?
    decreases |input| + 1 - pos
  {
    var p := TokenStart(input, pos);
    assert StartsToken(Ch(input, p));
    match NextToken(input, pos)
    case Scanned(tok, next) =>
      if !(tok.kind == Eof && next > |input|) {
        TokenizeFromClean(input, next);
      }
  }

  /** A text made only of characters that start tokens and blanks lexes without a panic.
      (The converse fails: a string literal may hold any character but `"`, newline and 0.) */
  lemma TokenizeClean(input: string)
    ensures (forall k :: 0 <= k < |input| ==> StartsToken(input[k]) || IsSpace(input[k])) ==>
            Tokenize(input).bad.None?
  {
    if forall k :: 0 <= k < |input| ==> StartsToken(input[k]) || IsSpace(input[k]) {
      TokenizeFromClean(input, 0);
    }
  }

  /** Once the input is used up the tokenizer answers EOF with an empty literal, and keeps
      doing so from the position it moves to. */
  lemma EofForever(input: string, pos: nat)
    requires pos >= |input|
    ensures NextToken(input, pos) == Scanned(Token(Eof, ""), pos + 1)
    ensures NextToken(input, pos + 1) == Scanned(Token(Eof, ""), pos + 2)
  {
  }

  /** A 0 byte reads as EOF wherever it stands. */
  lemma NulReadsAsEof(input: string, pos: nat)
    requires pos < |input| && input[pos] == Nul
    ensures NextToken(input, pos) == Scanned(Token(Eof, ""), pos + 1)
  {
  }
}
