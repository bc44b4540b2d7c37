/** The Pratt parser of parser/parser.go over an eagerly read token sequence. The parser's
    state is the index of its current token (the peek token is the next one), the indentation
    depth it last read and the errors recorded so far; every parse function returns the
    node it built together with the new state. */
module Parser {
  import opened Wrappers
  import opened Tokens
  import opened Ast
  import Decimal
  import Int64
  import Lexer
  import TokenStream

  // Binding strengths, weakest first (the iota constants of parser.go).
  const Lowest: int := 1
  const Equals: int := 2
  const LessGreater: int := 3
  const Sum: int := 4
  const Product: int := 5
  const Power: int := 6
  const PrefixLevel: int := 7
  const CallLevel: int := 8
  const IndexLevel: int := 9

  /** `precedenceMap`, with LOWEST for every kind it does not list. */
  function Precedence(k: Kind): int {
    match k
    case Eq | NotEq => Equals
    case Lt | Gt | GreaterEq | LessEq => LessGreater
    case Plus | Minus => Sum
    case Slash | Star => Product
    case DoubleStar => Power
    case LPar => CallLevel
    case LBr => IndexLevel
    case _ => Lowest
  }

  /** Kinds registered with `registerPrefix`. */
  predicate HasPrefixParser(k: Kind) {
    k in {Kind.Name, Int, Float, BoolTrue, BoolFalse, Str, LPar, If, Minus, Bang, Star, DoubleStar, LBr}
  }

  /** Kinds registered with `registerInfix`; `<=` and `>=` have a precedence but no handler. */
  predicate HasInfixParser(k: Kind) {
    k in {LPar, Eq, NotEq, Lt, Gt, Plus, Minus, Slash, Star, DoubleStar, LBr}
  }

  /** The errors the parser records, one per failed expectation. */
  datatype ParseError =
    | ExpectedToken(want: Kind, got: Kind)
    | NoPrefixParser(kind: Kind, peekLiteral: string)
    | BadInteger(literal: string)
    | BadFloat(literal: string)
    | BadBoolean(literal: string)

  /** The tokens the lexer hands out, with the indentation depth the lexer reports after
      each of them. Reading past the final EOF keeps yielding that EOF. */
  datatype Stream = Stream(toks: seq<Token>, depths: seq<nat>) {
    predicate Valid() {
      |toks| >= 1 && |depths| == |toks| && toks[|toks| - 1].kind == Eof
    }
  }

  datatype State = State(pos: nat, depth: nat, errors: seq<ParseError>)

  datatype Step = Step(ok: bool, st: State)
  datatype ExprParse = ExprParse(e: Expr, st: State)
  datatype StmtParse = StmtParse(stmt: Stmt, st: State)
  datatype StmtsParse = StmtsParse(stmts: seq<Stmt>, st: State)
  datatype BlockParse = BlockParse(block: Block, st: State)
  datatype ExprsParse = ExprsParse(exprs: seq<Expr>, st: State)
  datatype ArgsParse = ArgsParse(args: Option<seq<Expr>>, st: State)
  datatype NamesParse = NamesParse(names: seq<Name>, st: State)
  datatype ParamsParse = ParamsParse(params: Option<seq<Name>>, st: State)

  ghost predicate Inv(s: Stream, st: State) {
    s.Valid() && st.pos < |s.toks|
  }

  /** A later state: never behind, errors only appended. */
  ghost predicate Extends(s: Stream, st: State, st2: State) {
    Inv(s, st2) && st.pos <= st2.pos && st.errors <= st2.errors
  }

  function Cur(s: Stream, st: State): Token
    requires Inv(s, st)
  {
    s.toks[st.pos]
  }

  function PeekTok(s: Stream, st: State): (t: Token)
    requires Inv(s, st)
    ensures t.kind != Eof ==> st.pos + 1 < |s.toks| && t == s.toks[st.pos + 1]
  {
    if st.pos + 1 < |s.toks| then s.toks[st.pos + 1] else s.toks[st.pos]
  }

  /** `nextToken`: the peek token becomes current and the depth is re-read; on the final EOF
      the parser stays put. */
  function Advance(s: Stream, st: State): (r: State)
    requires Inv(s, st)
    ensures Inv(s, r) && r.errors == st.errors && r.depth == s.depths[r.pos]
    ensures r.pos == (if st.pos + 1 < |s.toks| then st.pos + 1 else st.pos)
    ensures Cur(s, st).kind != Eof ==> r.pos == st.pos + 1
    ensures Cur(s, r) == PeekTok(s, st)
  {
    var p := if st.pos + 1 < |s.toks| then st.pos + 1 else st.pos;
    State(p, s.depths[p], st.errors)
  }

  function AddError(st: State, e: ParseError): (r: State)
    ensures r.pos == st.pos && r.depth == st.depth && r.errors == st.errors + [e]
  {
    st.(errors := st.errors + [e])
  }

  /** `expectPeek`: advances exactly when the peek token has kind `k`, otherwise records one
      error naming the wanted and the actual kind and stays. */
  function ExpectPeek(s: Stream, st: State, k: Kind): (r: Step)
    requires Inv(s, st)
    ensures Extends(s, st, r.st)
    ensures r.ok <==> PeekTok(s, st).kind == k
    ensures r.ok ==> r.st == Advance(s, st) && Cur(s, r.st).kind == k
    ensures !r.ok ==> r.st == AddError(st, ExpectedToken(k, PeekTok(s, st).kind))
  {
    if PeekTok(s, st).kind == k then Step(true, Advance(s, st))
    else Step(false, AddError(st, ExpectedToken(k, PeekTok(s, st).kind)))
  }

  /** The colon test of `parseIfExpression`: accepted in place, else expected as the peek. */
  function ExpectColon(s: Stream, st: State): (r: Step)
    requires Inv(s, st)
    ensures Extends(s, st, r.st)
    ensures r.ok <==> Cur(s, st).kind == Colon || PeekTok(s, st).kind == Colon
    ensures r.ok ==> Cur(s, r.st).kind == Colon
  {
    if Cur(s, st).kind == Colon then Step(true, st) else ExpectPeek(s, st, Colon)
  }

  /** Where `parseExpression`'s loop stops: before a NEWL, before a token that binds no
      tighter than `prec` or has no infix handler, or on EOF. */
  ghost predicate StopsBefore(s: Stream, st: State, prec: int)
    requires Inv(s, st)
  {
    var k := PeekTok(s, st).kind;
    k == Newl || Precedence(k) <= prec || !HasInfixParser(k) || Cur(s, st).kind == Eof
  }

  /** `strconv.ParseBool`. */
  function ParseBool(lit: string): Option<bool> {
    if lit in {"1", "t", "T", "true", "TRUE", "True"} then Some(true)
    else if lit in {"0", "f", "F", "false", "FALSE", "False"} then Some(false)
    else None
  }

  /** The digit-and-dot spellings `strconv.ParseFloat` reads as a number: at least one digit
      and at most one dot. */
  predicate FloatSyntax(lit: string) {
    && (forall i :: 0 <= i < |lit| ==> Decimal.IsDigit(lit[i]) || lit[i] == '.')
    && (exists i :: 0 <= i < |lit| && Decimal.IsDigit(lit[i]))
    && (forall i, j :: 0 <= i < j < |lit| && lit[i] == '.' ==> lit[j] != '.')
  }

  /** The least value `strconv.ParseFloat` rounds past the largest float64 (2^1024 - 2^971):
      half a unit in the last place above it, where the tie rounds to even, which is past
      the largest float. From here on the result is infinite and the error is ErrRange. */
  const FloatOverflowBound: int := Int64.Power(2, 1024) - Int64.Power(2, 970)

  /** The characters before the first dot. */
  function WholePart(lit: string): (w: string)
    ensures |w| <= |lit| && w == lit[..|w|]
    ensures forall i :: 0 <= i < |w| ==> lit[i] != '.'
    ensures |w| < |lit| ==> lit[|w|] == '.'
  {
    if |lit| == 0 || lit[0] == '.' then "" else [lit[0]] + WholePart(lit[1..])
  }

  /** The number spellings `strconv.ParseFloat` accepts without an error: the syntax above,
      and a value below the overflow bound. The fraction is below 1 and the bound is whole,
      so the digits before the dot decide. A value too small for a float64 rounds to zero
      and is no error. */
  predicate FloatParses(lit: string) {
    FloatSyntax(lit) && Decimal.ValueIn(WholePart(lit), 10) < FloatOverflowBound
  }

  // ---------------------------------------------------------------------------------------
  // Statements. Termination: every function decreases (tokens left, rank), and every
  // function that can call back into a higher rank first moves past at least one token.

  /** `parseStatement`: NAME followed by `=` is an assignment, `def` a function, `return` a
      return, anything else an expression statement. */
  function ParseStatement(s: Stream, st: State): (r: StmtParse)
    requires Inv(s, st)
    ensures Extends(s, st, r.st)
    ensures var k := Cur(s, st).kind;
            && (k == Kind.Name && PeekTok(s, st).kind == Kind.Assign ==>
                  r.stmt.Assign? && r.stmt.tok == PeekTok(s, st) &&
                  r.stmt.name == Ast.Name(Cur(s, st), Cur(s, st).literal))
            && (k == Def ==> r.stmt.FuncDef? || r.stmt.FailedFuncDef?)
            && (k == Kind.Return ==> r.stmt.Return? && r.stmt.tok == Cur(s, st))
            && (!(k == Kind.Name && PeekTok(s, st).kind == Kind.Assign) && k != Def && k != Kind.Return ==>
                  r.stmt.ExprStmt? && r.stmt.tok == Cur(s, st))
    decreases |s.toks| - st.pos, 5
  {
    var k := Cur(s, st).kind;
    if k == Kind.Name && PeekTok(s, st).kind == Kind.Assign then ParseAssign(s, st)
    else if k == Def then ParseFunction(s, st)
    else if k == Kind.Return then ParseReturn(s, st)
    else ParseExpressionStatement(s, st)
  }

  /** Skips one NEWL after a simple statement. */
  function SkipNewline(s: Stream, st: State): (r: State)
    requires Inv(s, st)
    ensures Extends(s, st, r)
  {
    if PeekTok(s, st).kind == Newl then Advance(s, st) else st
  }

  /** `parseAssignStatement`: the node carries the `=` token and the name token. */
  function ParseAssign(s: Stream, st: State): (r: StmtParse)
    requires Inv(s, st) && Cur(s, st).kind == Kind.Name && PeekTok(s, st).kind == Kind.Assign
    ensures Extends(s, st, r.st)
    ensures r.stmt.Assign? && r.stmt.tok == PeekTok(s, st)
    ensures r.stmt.name == Ast.Name(Cur(s, st), Cur(s, st).literal)
    decreases |s.toks| - st.pos, 4
  {
    var nameTok := Cur(s, st);
    var st1 := Advance(s, st);
    var assignTok := Cur(s, st1);
    var value := ParseExpression(s, Advance(s, st1), Lowest);
    StmtParse(Ast.Assign(assignTok, Ast.Name(nameTok, nameTok.literal), value.e),
              SkipNewline(s, value.st))
  }

  function ParseReturn(s: Stream, st: State): (r: StmtParse)
    requires Inv(s, st) && Cur(s, st).kind == Kind.Return
    ensures Extends(s, st, r.st)
    ensures r.stmt.Return? && r.stmt.tok == Cur(s, st)
    decreases |s.toks| - st.pos, 4
  {
    var value := ParseExpression(s, Advance(s, st), Lowest);
    StmtParse(Ast.Return(Cur(s, st), value.e), SkipNewline(s, value.st))
  }

  function ParseExpressionStatement(s: Stream, st: State): (r: StmtParse)
    requires Inv(s, st)
    ensures Extends(s, st, r.st)
    ensures r.stmt.ExprStmt? && r.stmt.tok == Cur(s, st)
    decreases |s.toks| - st.pos, 4
  {
    var e := ParseExpression(s, st, Lowest);
    StmtParse(ExprStmt(Cur(s, st), e.e), SkipNewline(s, e.st))
  }

  /** `parseFunctionStatement`: `def NAME ( params ) :` then, after one more token, a
      depth-based block if that token is NEWL and an inline block otherwise. Any failed
      expectation gives the nil statement. */
  function ParseFunction(s: Stream, st: State): (r: StmtParse)
    requires Inv(s, st) && Cur(s, st).kind == Def
    ensures Extends(s, st, r.st)
    ensures r.stmt.FuncDef? || r.stmt.FailedFuncDef?
    ensures r.stmt.FuncDef? ==> r.stmt.tok == Cur(s, st) && PeekTok(s, st).kind == Kind.Name &&
                                r.stmt.name == Ast.Name(PeekTok(s, st), PeekTok(s, st).literal)
    decreases |s.toks| - st.pos, 4
  {
    var name := ExpectPeek(s, st, Kind.Name);
    if !name.ok then StmtParse(FailedFuncDef, name.st)
    else
      var nameTok := Cur(s, name.st);
      var lpar := ExpectPeek(s, name.st, LPar);
      if !lpar.ok then StmtParse(FailedFuncDef, lpar.st)
      else
        var params := ParseParameters(s, lpar.st);
        var colon := ExpectPeek(s, params.st, Colon);
        if !colon.ok then StmtParse(FailedFuncDef, colon.st)
        else
          var st1 := Advance(s, colon.st);
          var body := if Cur(s, st1).kind == Newl then ParseBlock(s, st1) else ParseInline(s, st1);
          StmtParse(FuncDef(Cur(s, st), Ast.Name(nameTok, nameTok.literal),
                            params.params.GetOr([]), body.block), body.st)
  }

  /** `parseFunctionArguments`, entered on `(`: `)` right away gives the empty list; otherwise
      a comma-separated run of tokens taken as names, and a missing `)` gives nil. */
  function ParseParameters(s: Stream, st: State): (r: ParamsParse)
    requires Inv(s, st)
    ensures Extends(s, st, r.st)
    ensures PeekTok(s, st).kind == RPar ==> r == ParamsParse(Some([]), Advance(s, st))
    ensures r.params.None? ==> |r.st.errors| == |st.errors| + 1
    ensures r.params.Some? ==> r.st.errors == st.errors && Cur(s, r.st).kind == RPar
  {
    if PeekTok(s, st).kind == RPar then ParamsParse(Some([]), Advance(s, st))
    else
      var st1 := Advance(s, st);
      var rest := ParseNameTail(s, st1);
      var close := ExpectPeek(s, rest.st, RPar);
      var names := [Ast.Name(Cur(s, st1), Cur(s, st1).literal)] + rest.names;
      ParamsParse(if close.ok then Some(names) else None, close.st)
  }

  /** The `, NAME` pairs after the first parameter; each name is whatever token follows the
      comma. */
  function ParseNameTail(s: Stream, st: State): (r: NamesParse)
    requires Inv(s, st)
    ensures Extends(s, st, r.st) && r.st.errors == st.errors
    ensures PeekTok(s, r.st).kind != Comma
    decreases |s.toks| - st.pos
  {
    if PeekTok(s, st).kind == Comma then
      var st1 := Advance(s, Advance(s, st));
      var rest := ParseNameTail(s, st1);
      NamesParse([Ast.Name(Cur(s, st1), Cur(s, st1).literal)] + rest.names, rest.st)
    else NamesParse([], st)
  }

  /** `parseBlockStatement`, entered on NEWL: after one more token the depth is recorded,
      then statements are read until EOF or a token whose depth is below the recorded one. */
  function ParseBlock(s: Stream, st: State): (r: BlockParse)
    requires Inv(s, st)
    ensures Extends(s, st, r.st)
    ensures r.block.tok == Cur(s, st)
    decreases |s.toks| - st.pos, 7
  {
    var st1 := Advance(s, st);
    var body := BlockLoop(s, st1, st1.depth);
    BlockParse(Block(Cur(s, st), body.stmts), body.st)
  }

  function BlockLoop(s: Stream, st: State, depth: nat): (r: StmtsParse)
    requires Inv(s, st)
    ensures Extends(s, st, r.st)
    ensures Cur(s, r.st).kind == Eof || r.st.depth < depth
    decreases |s.toks| - st.pos, 6
  {
    if Cur(s, st).kind == Eof || st.depth < depth then StmtsParse([], st)
    else
      var stmt := ParseStatement(s, st);
      var rest := BlockLoop(s, Advance(s, stmt.st), depth);
      StmtsParse([stmt.stmt] + rest.stmts, rest.st)
  }

  /** `parseInlineStatement`: statements from the current token until NEWL or EOF. */
  function ParseInline(s: Stream, st: State): (r: BlockParse)
    requires Inv(s, st)
    ensures Extends(s, st, r.st)
    ensures r.block.tok == Cur(s, st)
    ensures Cur(s, r.st).kind in {Eof, Newl}
    decreases |s.toks| - st.pos, 7
  {
    var body := InlineLoop(s, st);
    BlockParse(Block(Cur(s, st), body.stmts), body.st)
  }

  function InlineLoop(s: Stream, st: State): (r: StmtsParse)
    requires Inv(s, st)
    ensures Extends(s, st, r.st)
    ensures Cur(s, r.st).kind in {Eof, Newl}
    decreases |s.toks| - st.pos, 6
  {
    if Cur(s, st).kind in {Eof, Newl} then StmtsParse([], st)
    else
      var stmt := ParseStatement(s, st);
      var rest := InlineLoop(s, Advance(s, stmt.st));
      StmtsParse([stmt.stmt] + rest.stmts, rest.st)
  }

  // ---------------------------------------------------------------------------------------
  // Expressions.

  /** `parseExpression`: the current token's prefix handler, then infix handlers while the
      peek token binds tighter than `prec`. A token without a prefix handler records exactly
      one error and yields nil without moving. */
  function ParseExpression(s: Stream, st: State, prec: int): (r: ExprParse)
    requires Inv(s, st)
    ensures Extends(s, st, r.st)
    ensures !HasPrefixParser(Cur(s, st).kind) ==>
              r == ExprParse(Missing, AddError(st, NoPrefixParser(Cur(s, st).kind,
                                                                    PeekTok(s, st).literal)))
    ensures HasPrefixParser(Cur(s, st).kind) ==> StopsBefore(s, r.st, prec)
    decreases |s.toks| - st.pos, 3
  {
    var tok := Cur(s, st);
    if !HasPrefixParser(tok.kind) then
      ExprParse(Missing, AddError(st, NoPrefixParser(tok.kind, PeekTok(s, st).literal)))
    else
      var left := ParsePrefix(s, st);
      InfixLoop(s, left.st, prec, left.e)
  }

  /** The loop of `parseExpression`. */
  function InfixLoop(s: Stream, st: State, prec: int, left: Expr): (r: ExprParse)
    requires Inv(s, st)
    ensures Extends(s, st, r.st)
    ensures StopsBefore(s, r.st, prec)
    decreases |s.toks| - st.pos, 1
  {
    var k := PeekTok(s, st).kind;
    if k == Newl || prec >= Precedence(k) || !HasInfixParser(k) then ExprParse(left, st)
    else
      var next := ParseInfix(s, Advance(s, st), left);
      if Cur(s, next.st).kind == Eof then next
      else InfixLoop(s, next.st, prec, next.e)
  }

  /** The prefix handler of the current token. */
  function ParsePrefix(s: Stream, st: State): (r: ExprParse)
    requires Inv(s, st) && HasPrefixParser(Cur(s, st).kind)
    ensures Extends(s, st, r.st)
    decreases |s.toks| - st.pos, 2
  {
    if IsLiteralKind(Cur(s, st).kind) then ParseLiteral(s, st) else ParseCompoundPrefix(s, st)
  }

  /** The kinds whose prefix handler reads the current token only. */
  predicate IsLiteralKind(k: Kind) {
    k in {Kind.Name, Int, Float, BoolTrue, BoolFalse, Str}
  }

  /** `parseIdentifier`, `parseIntegerLiteral`, `parseFloatLiteral`, `parseStringLiteral`
      and `parseBoolean`: one token, and an error with nil when its literal is malformed. */
  function ParseLiteral(s: Stream, st: State): (r: ExprParse)
    requires Inv(s, st) && IsLiteralKind(Cur(s, st).kind)
    ensures Extends(s, st, r.st)
    ensures r.st.pos == st.pos && r.st.depth == st.depth
    ensures var tok := Cur(s, st);
            var err := if tok.kind == Int then BadInteger(tok.literal)
                       else if tok.kind == Float then BadFloat(tok.literal)
                       else BadBoolean(tok.literal);
            && (r.e.Missing? <==> r.st.errors != st.errors)
            && (r.e.Missing? ==> r.st.errors == st.errors + [err])
            && (tok.kind == Kind.Name ==> r.e == Ident(Ast.Name(tok, tok.literal)))
            && (tok.kind == Int && Decimal.ParseIntLiteral(tok.literal).Some? ==>
                  r.e == IntLit(tok, Decimal.ParseIntLiteral(tok.literal).value))
            && (tok.kind == Float ==> (r.e == FloatLit(tok) <==> FloatParses(tok.literal)))
            && (tok.kind == Str ==> r.e == StrLit(tok, tok.literal))
            && (tok.kind in {BoolTrue, BoolFalse} && tok.literal in {"true", "false"} ==>
                  r.e == BoolLit(tok, tok.literal == "true"))
  {
    var tok := Cur(s, st);
    if tok.kind == Kind.Name then ExprParse(Ident(Ast.Name(tok, tok.literal)), st)
    else if tok.kind == Int then
      (match Decimal.ParseIntLiteral(tok.literal)
       case Some(n) => ExprParse(IntLit(tok, n), st)
       case None => ExprParse(Missing, AddError(st, BadInteger(tok.literal))))
    else if tok.kind == Float then
      if FloatParses(tok.literal) then ExprParse(FloatLit(tok), st)
      else ExprParse(Missing, AddError(st, BadFloat(tok.literal)))
    else if tok.kind == Str then ExprParse(StrLit(tok, tok.literal), st)
    else
      (match ParseBool(tok.literal)
       case Some(b) => ExprParse(BoolLit(tok, b), st)
       case None => ExprParse(Missing, AddError(st, BadBoolean(tok.literal))))
  }

  /** The prefix handlers that read on past the current token: `(`, `if`, `[` and the
      prefix operators. */
  function ParseCompoundPrefix(s: Stream, st: State): (r: ExprParse)
    requires Inv(s, st) && HasPrefixParser(Cur(s, st).kind) && !IsLiteralKind(Cur(s, st).kind)
    ensures Extends(s, st, r.st)
    decreases |s.toks| - st.pos, 1
  {
    var k := Cur(s, st).kind;
    if k in {LPar, If} then
      if k == LPar then ParseGrouped(s, st) else ParseIf(s, st)
    else
      if k == LBr then ParseList(s, st) else ParsePrefixOperator(s, st)
  }

  /** `parsePrefixExpression` (`- ! * **`): the operand is parsed at PREFIX strength. */
  function ParsePrefixOperator(s: Stream, st: State): (r: ExprParse)
    requires Inv(s, st) && Cur(s, st).kind != Eof
    ensures Extends(s, st, r.st)
    ensures r.e.Prefix? && r.e.tok == Cur(s, st) && r.e.op == Cur(s, st).literal
    decreases |s.toks| - st.pos, 0
  {
    var right := ParseExpression(s, Advance(s, st), PrefixLevel);
    ExprParse(Prefix(Cur(s, st), Cur(s, st).literal, right.e), right.st)
  }

  /** `parseGroupedExpression`: `( expr )`, or nil (with an error) when `)` is missing. */
  function ParseGrouped(s: Stream, st: State): (r: ExprParse)
    requires Inv(s, st) && Cur(s, st).kind != Eof
    ensures Extends(s, st, r.st)
    ensures var inner := ParseExpression(s, Advance(s, st), Lowest);
            if PeekTok(s, inner.st).kind == RPar
            then r.e == inner.e && r.st == Advance(s, inner.st) && Cur(s, r.st).kind == RPar
            else r.e.Missing? && r.st.errors == inner.st.errors + [ExpectedToken(RPar, PeekTok(s, inner.st).kind)]
    decreases |s.toks| - st.pos, 0
  {
    var inner := ParseExpression(s, Advance(s, st), Lowest);
    var close := ExpectPeek(s, inner.st, RPar);
    ExprParse(if close.ok then inner.e else Missing, close.st)
  }

  /** `parseIfExpression`: condition, colon, consequence and, when the consequence ends on
      `else`, a colon and an alternative. Each body is a depth-based block when the token
      after the colon is NEWL and an inline block starting at the colon otherwise. */
  function ParseIf(s: Stream, st: State): (r: ExprParse)
    requires Inv(s, st) && Cur(s, st).kind != Eof
    ensures Extends(s, st, r.st)
    ensures r.e.Missing? || (r.e.IfExpr? && r.e.tok == Cur(s, st))
    decreases |s.toks| - st.pos, 0
  {
    var cond := ParseExpression(s, Advance(s, st), Lowest);
    var colon := ExpectColon(s, cond.st);
    if !colon.ok then ExprParse(Missing, colon.st)
    else ParseIfBranches(s, colon.st, Cur(s, st), cond.e)
  }

  /** The part of `parseIfExpression` after the condition's colon. */
  function ParseIfBranches(s: Stream, st: State, tok: Token, cond: Expr): (r: ExprParse)
    requires Inv(s, st)
    ensures Extends(s, st, r.st)
    ensures r.e.Missing? || (r.e.IfExpr? && r.e.tok == tok && r.e.cond == cond)
    decreases |s.toks| - st.pos, 9
  {
    var cons := ParseIfBody(s, st);
    if Cur(s, cons.st).kind == Else then
      var colon := ExpectColon(s, cons.st);
      if !colon.ok then ExprParse(Missing, colon.st)
      else
        var alt := ParseIfBody(s, colon.st);
        ExprParse(IfExpr(tok, cond, cons.block, Some(alt.block)), alt.st)
    else ExprParse(IfExpr(tok, cond, cons.block, None), cons.st)
  }

  function ParseIfBody(s: Stream, st: State): (r: BlockParse)
    requires Inv(s, st)
    ensures Extends(s, st, r.st)
    decreases |s.toks| - st.pos, 8
  {
    if PeekTok(s, st).kind == Newl then ParseBlock(s, Advance(s, st)) else ParseInline(s, st)
  }

  /** `parseListExpression`: a list is built only when the token after `[` is directly
      followed by a comma; otherwise the result is nil and no error is recorded. */
  function ParseList(s: Stream, st: State): (r: ExprParse)
    requires Inv(s, st) && Cur(s, st).kind != Eof
    ensures Extends(s, st, r.st)
    ensures PeekTok(s, Advance(s, st)).kind != Comma ==> r == ExprParse(Missing, Advance(s, st))
    ensures r.e.ListLit? ==> |r.e.elems| >= 1
    decreases |s.toks| - st.pos, 0
  {
    var st1 := Advance(s, st);
    if PeekTok(s, st1).kind == Comma then
      var first := ParseExpression(s, st1, Lowest);
      var rest := ParseCommaTail(s, first.st);
      var close := ExpectPeek(s, rest.st, RBr);
      if close.ok then ExprParse(ListLit([first.e] + rest.exprs), close.st)
      else ExprParse(Missing, close.st)
    else ExprParse(Missing, st1)
  }

  /** The `for p.peekTokenIs(COMMA)` loops: skip the comma, parse one more expression. */
  function ParseCommaTail(s: Stream, st: State): (r: ExprsParse)
    requires Inv(s, st)
    ensures Extends(s, st, r.st)
    ensures PeekTok(s, r.st).kind != Comma
    ensures PeekTok(s, st).kind != Comma <==> r == ExprsParse([], st)
    decreases |s.toks| - st.pos, 0
  {
    if PeekTok(s, st).kind == Comma then
      var item := ParseExpression(s, Advance(s, Advance(s, st)), Lowest);
      var rest := ParseCommaTail(s, item.st);
      ExprsParse([item.e] + rest.exprs, rest.st)
    else ExprsParse([], st)
  }

  /** The infix handler of the current token. */
  function ParseInfix(s: Stream, st: State, left: Expr): (r: ExprParse)
    requires Inv(s, st) && HasInfixParser(Cur(s, st).kind)
    ensures Extends(s, st, r.st)
    decreases |s.toks| - st.pos, 3
  {
    var k := Cur(s, st).kind;
    if k == LPar then ParseCall(s, st, left)
    else if k == LBr then ParseIndex(s, st, left)
    else ParseBinary(s, st, left)
  }

  /** `parseInfixExpression`: the right operand is parsed at the operator's own precedence,
      so operators of equal precedence group to the left. */
  function ParseBinary(s: Stream, st: State, left: Expr): (r: ExprParse)
    requires Inv(s, st) && Cur(s, st).kind != Eof
    ensures Extends(s, st, r.st)
    ensures r.e.Infix? && r.e.tok == Cur(s, st) && r.e.left == left
    decreases |s.toks| - st.pos, 0
  {
    var tok := Cur(s, st);
    var right := ParseExpression(s, Advance(s, st), Precedence(tok.kind));
    ExprParse(Infix(tok, tok.literal, left, right.e), right.st)
  }

  /** `parseCallExpression`: a missing `)` leaves a nil (empty) argument list. */
  function ParseCall(s: Stream, st: State, left: Expr): (r: ExprParse)
    requires Inv(s, st) && Cur(s, st).kind != Eof
    ensures Extends(s, st, r.st)
    ensures r.e.Call? && r.e.callee == left && r.e.tok == Cur(s, st)
    decreases |s.toks| - st.pos, 1
  {
    var args := ParseCallArguments(s, st);
    ExprParse(Call(Cur(s, st), left, args.args.GetOr([])), SkipNewline(s, args.st))
  }

  /** `parseCallArguments`, entered on `(`: `)` right away gives the empty list; a missing
      `)` records an error and gives nil. */
  function ParseCallArguments(s: Stream, st: State): (r: ArgsParse)
    requires Inv(s, st) && Cur(s, st).kind != Eof
    ensures Extends(s, st, r.st)
    ensures PeekTok(s, st).kind == RPar ==> r == ArgsParse(Some([]), Advance(s, st))
    ensures r.args.None? ==> |r.st.errors| > |st.errors|
    ensures r.args.Some? ==> Cur(s, r.st).kind == RPar
    decreases |s.toks| - st.pos, 0
  {
    if PeekTok(s, st).kind == RPar then ArgsParse(Some([]), Advance(s, st))
    else
      var first := ParseExpression(s, Advance(s, st), Lowest);
      var rest := ParseCommaTail(s, first.st);
      var close := ExpectPeek(s, rest.st, RPar);
      ArgsParse(if close.ok then Some([first.e] + rest.exprs) else None, close.st)
  }

  /** `parseIndexExpression`: `target [ expr ]`, or nil when `]` is missing. */
  function ParseIndex(s: Stream, st: State, left: Expr): (r: ExprParse)
    requires Inv(s, st) && Cur(s, st).kind != Eof
    ensures Extends(s, st, r.st)
    ensures var index := ParseExpression(s, Advance(s, st), Lowest);
            if PeekTok(s, index.st).kind == RBr
            then r.e == Index(Cur(s, st), left, index.e) && Cur(s, r.st).kind == RBr
            else r.e.Missing? && r.st.errors == index.st.errors + [ExpectedToken(RBr, PeekTok(s, index.st).kind)]
    decreases |s.toks| - st.pos, 0
  {
    var index := ParseExpression(s, Advance(s, st), Lowest);
    var close := ExpectPeek(s, index.st, RBr);
    if close.ok then ExprParse(Index(Cur(s, st), left, index.e), close.st)
    else ExprParse(Missing, close.st)
  }

  // ---------------------------------------------------------------------------------------
  // Programs.

  /** A parsed program, its errors, and the position of the EOF the parser stopped on: the
      furthest it read, as positions never move back. */
  datatype ProgramParse = ProgramParse(program: Program, errors: seq<ParseError>, reached: nat)

  /** `ParseProgram`: statements in source order until the current token is EOF. Every
      statement is kept: a failed `def` is a nil pointer inside a non-nil interface, so the
      `!= nil` test never drops anything. */
  function ParseProgram(s: Stream): (r: ProgramParse)
    requires s.Valid()
    ensures r.program.stmts == [] <==> s.toks[0].kind == Eof
    ensures r.reached < |s.toks| && s.toks[r.reached].kind == Eof
    ensures s.toks[0].kind == Eof ==> r.reached == 0 && r.errors == []
  {
    var body := ProgramLoop(s, State(0, 0, []));
    ProgramParse(Program(body.stmts), body.st.errors, body.st.pos)
  }

  function ProgramLoop(s: Stream, st: State): (r: StmtsParse)
    requires Inv(s, st)
    ensures Extends(s, st, r.st) && Cur(s, r.st).kind == Eof
    ensures r.stmts == [] <==> Cur(s, st).kind == Eof
    ensures Cur(s, st).kind == Eof ==> r.st == st
    decreases |s.toks| - st.pos
  {
    if Cur(s, st).kind == Eof then StmtsParse([], st)
    else
      var stmt := ParseStatement(s, st);
      var rest := ProgramLoop(s, Advance(s, stmt.st));
      StmtsParse([stmt.stmt] + rest.stmts, rest.st)
  }

  /** The outcome of running the interpreter's front end on a source text: a program with its
      parse errors, or the lexer's panic on a character that starts no token. */
  datatype ParseOutcome = Parsed(program: Program, errors: seq<ParseError>) | LexerPanic(ch: char)

  /** The token stream the lexer hands the parser for `source`, with every depth 0 (the
      lexer's depth bookkeeping is not part of this model). */
  function StreamOf(toks: seq<Token>): (s: Stream)
    requires |toks| >= 1 && toks[|toks| - 1].kind == Eof
    ensures s.Valid() && s.toks == toks
    ensures forall i :: 0 <= i < |toks| ==> s.depths[i] == 0
  {
    Stream(toks, seq(|toks|, _ => 0))
  }

  /** The tokens the parser works on: the lexer's, with an EOF standing in for the panic when
      there is one. The stand-in is never read by a parse that does not reach it. */
  function StreamTokens(lx: TokenStream.Lexed): (toks: seq<Token>)
    requires lx.bad.None? ==> |lx.toks| >= 1 && lx.toks[|lx.toks| - 1].kind == Eof
    ensures |toks| >= 1 && toks[|toks| - 1].kind == Eof
    ensures |toks| == |lx.toks| || |toks| == |lx.toks| + 1
    ensures forall i :: 0 <= i < |lx.toks| ==> toks[i] == lx.toks[i]
    ensures lx.bad.None? ==> toks == lx.toks
  {
    if lx.bad.Some? then lx.toks + [Token(Eof, "")] else lx.toks
  }

  /** Lexing then parsing a source text. The Go parser pulls tokens from the lexer one at a
      time, always one ahead of its current token, so the lexer panics exactly when the parser
      gets as far as the token just before the illegal character. */
  function Parse(source: string): (r: ParseOutcome)
    ensures var lx := TokenStream.Tokenize(source);
            var parsed := ParseLexed(lx);
            && (r.LexerPanic? <==> lx.bad.Some? && parsed.reached + 1 >= |lx.toks|)
            && (r.LexerPanic? ==> lx.bad == Some(r.ch) && !Lexer.StartsToken(r.ch) && r.ch in source)
            && (r.Parsed? ==> r == Parsed(parsed.program, parsed.errors))
  {
    var lx := TokenStream.Tokenize(source);
    var parsed := ParseLexed(lx);
    if lx.bad.Some? && parsed.reached + 1 >= |lx.toks| then LexerPanic(lx.bad.value)
    else Parsed(parsed.program, parsed.errors)
  }

  /** The parse of the tokens the lexer hands out. */
  function ParseLexed(lx: TokenStream.Lexed): ProgramParse
    requires lx.bad.None? ==> |lx.toks| >= 1 && lx.toks[|lx.toks| - 1].kind == Eof
  {
    ParseProgram(StreamOf(StreamTokens(lx)))
  }
}
