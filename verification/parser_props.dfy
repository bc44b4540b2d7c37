/** Properties of the parser: how each rule behaves in general, and what it builds from a
    few small token streams. */
module ParserProps {
  import opened Wrappers
  import opened Tokens
  import opened Ast
  import opened Parser
  import Decimal

  /** The binary operators: a precedence and an infix handler that is `parseInfixExpression`. */
  predicate IsBinaryOperator(k: Kind) {
    k in {Eq, NotEq, Lt, Gt, Plus, Minus, Slash, Star, DoubleStar}
  }

  // ---------------------------------------------------------------------------------------
  // Which handler runs.

  lemma PrefixOfList(s: Stream, st: State)
    requires Inv(s, st) && Cur(s, st).kind == LBr
    ensures ParsePrefix(s, st) == ParseList(s, st)
  {
    assert ParsePrefix(s, st) == ParseCompoundPrefix(s, st);
  }

  lemma PrefixOfIf(s: Stream, st: State)
    requires Inv(s, st) && Cur(s, st).kind == If
    ensures ParsePrefix(s, st) == ParseIf(s, st)
  {
    assert ParsePrefix(s, st) == ParseCompoundPrefix(s, st);
  }

  lemma PrefixOfName(s: Stream, st: State)
    requires Inv(s, st) && Cur(s, st).kind == Kind.Name
    ensures ParsePrefix(s, st) == ExprParse(Ident(Ast.Name(Cur(s, st), Cur(s, st).literal)), st)
  {
  }

  lemma PrefixOfOperator(s: Stream, st: State)
    requires Inv(s, st) && Cur(s, st).kind in {Minus, Bang, Star, DoubleStar}
    ensures ParsePrefix(s, st) == ParsePrefixOperator(s, st)
  {
    assert ParsePrefix(s, st) == ParseCompoundPrefix(s, st);
  }

  lemma InfixOfCall(s: Stream, st: State, left: Expr)
    requires Inv(s, st) && Cur(s, st).kind == LPar
    ensures ParseInfix(s, st, left) == ParseCall(s, st, left)
  {
  }

  lemma InfixOfBinary(s: Stream, st: State, left: Expr)
    requires Inv(s, st) && IsBinaryOperator(Cur(s, st).kind)
    ensures ParseInfix(s, st, left) == ParseBinary(s, st, left)
  {
  }

  /** One round of the loop of `parseExpression`: the infix handler of the peek token runs,
      and the loop goes on from where it stopped. */
  lemma LoopStep(s: Stream, st: State, prec: int, left: Expr)
    requires Inv(s, st)
    requires var k := PeekTok(s, st).kind; k != Newl && prec < Precedence(k) && HasInfixParser(k)
    requires Cur(s, ParseInfix(s, Advance(s, st), left).st).kind != Eof
    ensures var next := ParseInfix(s, Advance(s, st), left);
            InfixLoop(s, st, prec, left) == InfixLoop(s, next.st, prec, next.e)
  {
  }

  // ---------------------------------------------------------------------------------------
  // General properties.

  /** A name whose successor cannot continue the expression is parsed alone, in place. */
  lemma NameAlone(s: Stream, st: State, prec: int)
    requires Inv(s, st) && Cur(s, st).kind == Kind.Name
    requires StopsBefore(s, st, prec)
    ensures ParseExpression(s, st, prec) ==
            ExprParse(Ident(Ast.Name(Cur(s, st), Cur(s, st).literal)), st)
  {
    var e := Ident(Ast.Name(Cur(s, st), Cur(s, st).literal));
    assert ParsePrefix(s, st) == ExprParse(e, st);
    assert InfixLoop(s, st, prec, e) == ExprParse(e, st);
  }

  /** The loop of `parseExpression` ends at once when the peek token cannot continue. */
  lemma InfixLoopStops(s: Stream, st: State, prec: int, left: Expr)
    requires Inv(s, st)
    requires var k := PeekTok(s, st).kind; k == Newl || prec >= Precedence(k) || !HasInfixParser(k)
    ensures InfixLoop(s, st, prec, left) == ExprParse(left, st)
  {
  }

  /** One round of the loop with a binary operator and a name as its right operand: since
      the operand is parsed at the operator's own precedence, it stops before any operator
      that binds no tighter, which is left for the enclosing loop. */
  lemma BinaryStep(s: Stream, st: State, prec: int, left: Expr)
    requires Inv(s, st) && IsBinaryOperator(PeekTok(s, st).kind) && prec < Precedence(PeekTok(s, st).kind)
    requires var st2 := Advance(s, Advance(s, st));
             Cur(s, st2).kind == Kind.Name && StopsBefore(s, st2, Precedence(PeekTok(s, st).kind))
    ensures var op, st2 := PeekTok(s, st), Advance(s, Advance(s, st));
            var right := Ident(Ast.Name(Cur(s, st2), Cur(s, st2).literal));
            InfixLoop(s, st, prec, left) == InfixLoop(s, st2, prec, Infix(op, op.literal, left, right))
  {
    var op, st1 := PeekTok(s, st), Advance(s, st);
    var st2 := Advance(s, st1);
    var right := Ident(Ast.Name(Cur(s, st2), Cur(s, st2).literal));
    assert ParseInfix(s, st1, left) == ExprParse(Infix(op, op.literal, left, right), st2) by {
      NameAlone(s, st2, Precedence(op.kind));
      InfixOfBinary(s, st1, left);
    }
    LoopStep(s, st, prec, left);
  }

  /** A prefix operator followed by a name and then anything that binds no tighter than a
      prefix operator (every binary operator) applies to that name alone. */
  lemma PrefixTakesOperandOnly(s: Stream, st: State)
    requires Inv(s, st) && Cur(s, st).kind in {Minus, Bang, Star, DoubleStar}
    requires Cur(s, Advance(s, st)).kind == Kind.Name && StopsBefore(s, Advance(s, st), PrefixLevel)
    ensures var op, n := Cur(s, st), Cur(s, Advance(s, st));
            ParsePrefix(s, st) == ExprParse(Prefix(op, op.literal, Ident(Ast.Name(n, n.literal))), Advance(s, st))
  {
    PrefixOfOperator(s, st);
    NameAlone(s, Advance(s, st), PrefixLevel);
  }

  /** `parseExpression` with a prefix handler: that handler, then the loop. */
  lemma ExpressionUnfolds(s: Stream, st: State, prec: int)
    requires Inv(s, st) && HasPrefixParser(Cur(s, st).kind)
    ensures var left := ParsePrefix(s, st);
            ParseExpression(s, st, prec) == InfixLoop(s, left.st, prec, left.e)
  {
  }

  /** When the prefix handler stops in front of a token that cannot continue the
      expression, its result is the whole expression. */
  lemma ExpressionOfPrefix(s: Stream, st: State, prec: int, e: Expr, st2: State)
    requires Inv(s, st) && HasPrefixParser(Cur(s, st).kind)
    requires ParsePrefix(s, st) == ExprParse(e, st2) && Inv(s, st2)
    requires var k := PeekTok(s, st2).kind; k == Newl || prec >= Precedence(k) || !HasInfixParser(k)
    ensures ParseExpression(s, st, prec) == ExprParse(e, st2)
  {
    ExpressionUnfolds(s, st, prec);
    InfixLoopStops(s, st2, prec, e);
  }

  /** An expression is its prefix operand carried through the infix loop. */
  lemma ExpressionOfLoop(s: Stream, st: State, prec: int, left: ExprParse, r: ExprParse)
    requires Inv(s, st) && HasPrefixParser(Cur(s, st).kind)
    requires ParsePrefix(s, st) == left && Inv(s, left.st)
    requires InfixLoop(s, left.st, prec, left.e) == r
    ensures ParseExpression(s, st, prec) == r
  {
    ExpressionUnfolds(s, st, prec);
  }

  /** An assignment is the name, the `=` token and the expression after it. */
  lemma AssignOfValue(s: Stream, st: State, value: ExprParse)
    requires Inv(s, st) && Cur(s, st).kind == Kind.Name && PeekTok(s, st).kind == Kind.Assign
    requires ParseExpression(s, Advance(s, Advance(s, st)), Lowest) == value && Inv(s, value.st)
    requires PeekTok(s, value.st).kind != Newl
    ensures ParseStatement(s, st) ==
            StmtParse(Ast.Assign(PeekTok(s, st), Ast.Name(Cur(s, st), Cur(s, st).literal), value.e), value.st)
  {
    assert ParseStatement(s, st) == ParseAssign(s, st);
  }

  /** A list whose `[` is followed by one token and a comma is that first expression, the
      comma-separated tail, and the closing `]`. */
  lemma ListOfParts(s: Stream, st: State, first: Expr, mid: State, elems: seq<Expr>, end: State)
    requires Inv(s, st) && Cur(s, st).kind != Eof && PeekTok(s, Advance(s, st)).kind == Comma
    requires ParseExpression(s, Advance(s, st), Lowest) == ExprParse(first, mid) && Inv(s, mid)
    requires ParseCommaTail(s, mid) == ExprsParse(elems, end) && Inv(s, end)
    requires PeekTok(s, end).kind == RBr
    ensures ParseList(s, st) == ExprParse(ListLit([first] + elems), Advance(s, end))
  {
    assert ExpectPeek(s, end, RBr) == Step(true, Advance(s, end));
  }

  /** Call arguments that do not start with `)` are the first expression, the
      comma-separated tail, and the closing `)`. */
  lemma ArgumentsOfParts(s: Stream, st: State, first: Expr, mid: State, elems: seq<Expr>, end: State)
    requires Inv(s, st) && Cur(s, st).kind != Eof && PeekTok(s, st).kind != RPar
    requires ParseExpression(s, Advance(s, st), Lowest) == ExprParse(first, mid) && Inv(s, mid)
    requires ParseCommaTail(s, mid) == ExprsParse(elems, end) && Inv(s, end)
    requires PeekTok(s, end).kind == RPar
    ensures ParseCallArguments(s, st) == ArgsParse(Some([first] + elems), Advance(s, end))
  {
    assert ExpectPeek(s, end, RPar) == Step(true, Advance(s, end));
  }

  /** A call whose argument list parses is the call of `left` on those arguments. */
  lemma CallOfArguments(s: Stream, st: State, left: Expr, args: seq<Expr>, end: State)
    requires Inv(s, st) && Cur(s, st).kind == LPar
    requires ParseCallArguments(s, st) == ArgsParse(Some(args), end) && Inv(s, end)
    requires PeekTok(s, end).kind != Newl
    ensures ParseInfix(s, st, left) == ExprParse(Call(Cur(s, st), left, args), end)
  {
    InfixOfCall(s, st, left);
  }

  /** A call whose argument list is nil is the call of `left` on no arguments. */
  lemma CallOfNoArguments(s: Stream, st: State, left: Expr, end: State)
    requires Inv(s, st) && Cur(s, st).kind == LPar
    requires ParseCallArguments(s, st) == ArgsParse(None, end) && Inv(s, end)
    requires PeekTok(s, end).kind != Newl
    ensures ParseInfix(s, st, left) == ExprParse(Call(Cur(s, st), left, []), end)
  {
    InfixOfCall(s, st, left);
  }

  /** A comma-separated tail of one expression. */
  lemma CommaTailOfOne(s: Stream, st: State, e: Expr, end: State)
    requires Inv(s, st) && PeekTok(s, st).kind == Comma
    requires ParseExpression(s, Advance(s, Advance(s, st)), Lowest) == ExprParse(e, end) && Inv(s, end)
    requires PeekTok(s, end).kind != Comma
    ensures ParseCommaTail(s, st) == ExprsParse([e], end)
  {
    assert [e] + [] == [e];
    assert ParseCommaTail(s, st) == ExprsParse([e] + [], end) by {
      CommaTailStep(s, st);
      assert ParseCommaTail(s, end) == ExprsParse([], end);
    }
  }

  /** One round of the loop of `parseExpression`, after which it stops. */
  lemma LoopOnce(s: Stream, st: State, prec: int, left: Expr, e: Expr, end: State)
    requires Inv(s, st)
    requires var k := PeekTok(s, st).kind; k != Newl && prec < Precedence(k) && HasInfixParser(k)
    requires ParseInfix(s, Advance(s, st), left) == ExprParse(e, end) && Inv(s, end)
    requires Cur(s, end).kind != Eof
    requires var k := PeekTok(s, end).kind; k == Newl || prec >= Precedence(k) || !HasInfixParser(k)
    ensures InfixLoop(s, st, prec, left) == ExprParse(e, end)
  {
    LoopStep(s, st, prec, left);
    InfixLoopStops(s, end, prec, e);
  }

  /** Call arguments not closed by `)` are nil, with one expected-`)` error for the token
      found instead. */
  lemma ArgumentsUnclosed(s: Stream, st: State, first: Expr, mid: State, elems: seq<Expr>, end: State)
    requires Inv(s, st) && Cur(s, st).kind != Eof && PeekTok(s, st).kind != RPar
    requires ParseExpression(s, Advance(s, st), Lowest) == ExprParse(first, mid) && Inv(s, mid)
    requires ParseCommaTail(s, mid) == ExprsParse(elems, end) && Inv(s, end)
    requires PeekTok(s, end).kind != RPar
    ensures ParseCallArguments(s, st) ==
            ArgsParse(None, AddError(end, ExpectedToken(RPar, PeekTok(s, end).kind)))
  {
    assert ExpectPeek(s, end, RPar) == Step(false, AddError(end, ExpectedToken(RPar, PeekTok(s, end).kind)));
  }

  /** An integer literal whose successor cannot continue the expression is parsed alone. */
  lemma IntegerAlone(s: Stream, st: State, prec: int, n: int)
    requires Inv(s, st) && Cur(s, st).kind == Int && StopsBefore(s, st, prec)
    requires Decimal.ParseIntLiteral(Cur(s, st).literal) == Some(n)
    ensures ParseExpression(s, st, prec) == ExprParse(IntLit(Cur(s, st), n), st)
  {
    assert ParsePrefix(s, st) == ExprParse(IntLit(Cur(s, st), n), st);
    InfixLoopStops(s, st, prec, IntLit(Cur(s, st), n));
  }

  /** One round of a comma-separated list: skip the comma, parse one more expression. */
  lemma CommaTailStep(s: Stream, st: State)
    requires Inv(s, st) && PeekTok(s, st).kind == Comma
    ensures var item := ParseExpression(s, Advance(s, Advance(s, st)), Lowest);
            var rest := ParseCommaTail(s, item.st);
            ParseCommaTail(s, st) == ExprsParse([item.e] + rest.exprs, rest.st)
  {
  }

  /** A lone name is an expression statement of its own. */
  lemma NameStatementAlone(s: Stream, st: State)
    requires Inv(s, st) && Cur(s, st).kind == Kind.Name
    requires PeekTok(s, st).kind !in {Kind.Assign, Newl} && StopsBefore(s, st, Lowest)
    ensures ParseStatement(s, st) ==
            StmtParse(ExprStmt(Cur(s, st), Ident(Ast.Name(Cur(s, st), Cur(s, st).literal))), st)
  {
    NameAlone(s, st, Lowest);
  }

  /** A statement that starts on a token without a prefix handler is a nil expression
      statement with one error, and the parser stays on that token. */
  lemma NoPrefixStatement(s: Stream, st: State)
    requires Inv(s, st) && !HasPrefixParser(Cur(s, st).kind)
    requires Cur(s, st).kind !in {Def, Kind.Return} && PeekTok(s, st).kind != Newl
    ensures ParseStatement(s, st) ==
            StmtParse(ExprStmt(Cur(s, st), Missing),
                      AddError(st, NoPrefixParser(Cur(s, st).kind, PeekTok(s, st).literal)))
  {
    var st1 := AddError(st, NoPrefixParser(Cur(s, st).kind, PeekTok(s, st).literal));
    StatementIsExpression(s, st);
    ExpressionStatementOfMissing(s, st, st1);
  }

  /** An expression statement whose expression has no prefix parser. */
  lemma ExpressionStatementOfMissing(s: Stream, st: State, st1: State)
    requires Inv(s, st) && !HasPrefixParser(Cur(s, st).kind) && PeekTok(s, st).kind != Newl
    requires st1 == AddError(st, NoPrefixParser(Cur(s, st).kind, PeekTok(s, st).literal))
    ensures ParseExpressionStatement(s, st) == StmtParse(ExprStmt(Cur(s, st), Missing), st1)
  {
    assert PeekTok(s, st1) == PeekTok(s, st);
  }

  /** A statement that is not an assignment, a `def` or a `return` is an expression statement. */
  lemma StatementIsExpression(s: Stream, st: State)
    requires Inv(s, st) && Cur(s, st).kind !in {Kind.Name, Def, Kind.Return}
    ensures ParseStatement(s, st) == ParseExpressionStatement(s, st)
  {
  }

  /** One statement of an inline body, then the rest of the body. */
  lemma InlineStep(s: Stream, st: State, first: StmtParse, rest: StmtsParse)
    requires Inv(s, st) && Cur(s, st).kind !in {Eof, Newl}
    requires ParseStatement(s, st) == first && Inv(s, first.st)
    requires InlineLoop(s, Advance(s, first.st)) == rest
    ensures InlineLoop(s, st) == StmtsParse([first.stmt] + rest.stmts, rest.st)
  {
  }

  /** `<=` and `>=` have a precedence but no infix handler: an expression ends in front of
      them, whatever the binding strength asked for, and they are left unconsumed. */
  lemma StopsBeforeLessEqual(s: Stream, st: State, prec: int, left: Expr)
    requires Inv(s, st) && PeekTok(s, st).kind in {LessEq, GreaterEq}
    ensures InfixLoop(s, st, prec, left) == ExprParse(left, st)
  {
    InfixLoopStops(s, st, prec, left);
  }

  /** Binding strength runs `== !=` < `< > <= >=` < `+ -` < `* /` < `**` < prefix < call <
      index, and every other kind binds weakest. */
  lemma PrecedenceLadder()
    ensures Lowest < Precedence(Eq) == Precedence(NotEq) < Precedence(Lt) == Precedence(Gt)
    ensures Precedence(LessEq) == Precedence(GreaterEq) == Precedence(Gt) < Precedence(Plus)
    ensures Precedence(Plus) == Precedence(Minus) < Precedence(Star) == Precedence(Slash)
    ensures Precedence(Slash) < Precedence(DoubleStar) < PrefixLevel < Precedence(LPar) < Precedence(LBr)
    ensures forall k: Kind :: Precedence(k) == Lowest <==>
              k !in {Eq, NotEq, Lt, Gt, LessEq, GreaterEq, Plus, Minus, Star, Slash, DoubleStar, LPar, LBr}
  {
  }

  // ---------------------------------------------------------------------------------------
  // Small token streams. Each public lemma states its claim on a literal token sequence; the
  // helpers work on any stream that holds those tokens, all at depth 0.

  /** Every token of `s` sits at depth 0. */
  ghost predicate Flat(s: Stream) {
    forall i :: 0 <= i < |s.depths| ==> s.depths[i] == 0
  }

  /** The expression the parser builds for a NAME token spelled `x`. */
  function Var(x: string): (e: Expr)
    ensures e.Ident? && e.name.tok.kind == Kind.Name && e.name.value == e.name.tok.literal == x
  {
    Ident(Ast.Name(Token(Kind.Name, x), x))
  }

  lemma SmallLiterals()
    ensures Decimal.ParseIntLiteral("1") == Some(1)
    ensures Decimal.ParseIntLiteral("2") == Some(2)
    ensures Decimal.ParseIntLiteral("5") == Some(5)
  {
    Decimal.LiteralRoundTrip(1);
    Decimal.LiteralRoundTrip(2);
    Decimal.LiteralRoundTrip(5);
  }

  // `a op b op c`

  ghost predicate ChainTokens(s: Stream, op: Token) {
    && s.Valid() && Flat(s) && |s.toks| == 6
    && s.toks[0] == Token(Kind.Name, "a") && s.toks[1] == op && s.toks[2] == Token(Kind.Name, "b")
    && s.toks[3] == op && s.toks[4] == Token(Kind.Name, "c") && s.toks[5] == Token(Eof, "")
  }

  /** `a op b op c` groups as `(a op b) op c` for every binary operator, `**` included. */
  lemma BinaryGroupsLeft(k: Kind, lit: string)
    requires IsBinaryOperator(k)
    ensures
      var op := Token(k, lit);
      var s := StreamOf([Token(Kind.Name, "a"), op, Token(Kind.Name, "b"), op, Token(Kind.Name, "c"), Token(Eof, "")]);
      ParseExpression(s, State(0, 0, []), Lowest) ==
        ExprParse(Infix(op, lit, Infix(op, lit, Var("a"), Var("b")), Var("c")), State(4, 0, []))
  {
    var op := Token(k, lit);
    var s := StreamOf([Token(Kind.Name, "a"), op, Token(Kind.Name, "b"), op, Token(Kind.Name, "c"), Token(Eof, "")]);
    assert ChainTokens(s, op);
    GroupsLeft(s, op);
  }

  lemma GroupsLeft(s: Stream, op: Token)
    requires IsBinaryOperator(op.kind) && ChainTokens(s, op)
    ensures ParseExpression(s, State(0, 0, []), Lowest) ==
            ExprParse(Infix(op, op.literal, Infix(op, op.literal, Var("a"), Var("b")), Var("c")), State(4, 0, []))
  {
    var AB := Infix(op, op.literal, Var("a"), Var("b"));
    var st0, st2, st4 := State(0, 0, []), State(2, 0, []), State(4, 0, []);
    assert Advance(s, Advance(s, st0)) == st2;
    assert Advance(s, Advance(s, st2)) == st4;
    PrefixOfName(s, st0);
    ExpressionUnfolds(s, st0, Lowest);
    BinaryStep(s, st0, Lowest, Var("a"));
    BinaryStep(s, st2, Lowest, AB);
    InfixLoopStops(s, st4, Lowest, Infix(op, op.literal, AB, Var("c")));
  }

  // `pre a op b`

  ghost predicate PrefixedTokens(s: Stream, pre: Token, op: Token) {
    && s.Valid() && Flat(s) && |s.toks| == 5
    && s.toks[0] == pre && s.toks[1] == Token(Kind.Name, "a") && s.toks[2] == op
    && s.toks[3] == Token(Kind.Name, "b") && s.toks[4] == Token(Eof, "")
  }

  /** A prefix operator takes only its operand: `-a + b` is `(-a) + b` for every prefix
      operator (`- ! * **`) and every binary operator. */
  lemma PrefixBindsTighter(pk: Kind, plit: string, k: Kind, lit: string)
    requires pk in {Minus, Bang, Star, DoubleStar} && IsBinaryOperator(k)
    ensures
      var pre, op := Token(pk, plit), Token(k, lit);
      var s := StreamOf([pre, Token(Kind.Name, "a"), op, Token(Kind.Name, "b"), Token(Eof, "")]);
      ParseExpression(s, State(0, 0, []), Lowest) ==
        ExprParse(Infix(op, lit, Prefix(pre, plit, Var("a")), Var("b")), State(3, 0, []))
  {
    var pre, op := Token(pk, plit), Token(k, lit);
    var s := StreamOf([pre, Token(Kind.Name, "a"), op, Token(Kind.Name, "b"), Token(Eof, "")]);
    assert PrefixedTokens(s, pre, op);
    PrefixFirst(s, pre, op);
  }

  lemma PrefixFirst(s: Stream, pre: Token, op: Token)
    requires pre.kind in {Minus, Bang, Star, DoubleStar} && IsBinaryOperator(op.kind)
    requires PrefixedTokens(s, pre, op)
    ensures ParseExpression(s, State(0, 0, []), Lowest) ==
            ExprParse(Infix(op, op.literal, Prefix(pre, pre.literal, Var("a")), Var("b")), State(3, 0, []))
  {
    PrefixFirstOperand(s, pre, op);
    ExpressionUnfolds(s, State(0, 0, []), Lowest);
    PrefixFirstRest(s, pre, op);
  }

  lemma PrefixFirstOperand(s: Stream, pre: Token, op: Token)
    requires pre.kind in {Minus, Bang, Star, DoubleStar} && IsBinaryOperator(op.kind)
    requires PrefixedTokens(s, pre, op)
    ensures ParsePrefix(s, State(0, 0, [])) == ExprParse(Prefix(pre, pre.literal, Var("a")), State(1, 0, []))
  {
    assert Advance(s, State(0, 0, [])) == State(1, 0, []);
    PrefixTakesOperandOnly(s, State(0, 0, []));
  }

  lemma PrefixFirstRest(s: Stream, pre: Token, op: Token)
    requires pre.kind in {Minus, Bang, Star, DoubleStar} && IsBinaryOperator(op.kind)
    requires PrefixedTokens(s, pre, op)
    ensures var P := Prefix(pre, pre.literal, Var("a"));
            InfixLoop(s, State(1, 0, []), Lowest, P) ==
            ExprParse(Infix(op, op.literal, P, Var("b")), State(3, 0, []))
  {
    var P := Prefix(pre, pre.literal, Var("a"));
    var st1, st3 := State(1, 0, []), State(3, 0, []);
    assert Advance(s, Advance(s, st1)) == st3;
    BinaryStep(s, st1, Lowest, P);
    InfixLoopStops(s, st3, Lowest, Infix(op, op.literal, P, Var("b")));
  }

  // `- f ( x )`

  ghost predicate NegatedCallTokens(s: Stream) {
    && s.Valid() && Flat(s) && |s.toks| == 6
    && s.toks[0] == Token(Minus, "-") && s.toks[1] == Token(Kind.Name, "f") && s.toks[2] == Token(LPar, "(")
    && s.toks[3] == Token(Kind.Name, "x") && s.toks[4] == Token(RPar, ")") && s.toks[5] == Token(Eof, "")
  }

  /** A call binds tighter than a prefix operator: `-f(x)` is `-(f(x))`. */
  lemma PrefixAppliesToCall()
    ensures
      var neg, lp := Token(Minus, "-"), Token(LPar, "(");
      var s := StreamOf([neg, Token(Kind.Name, "f"), lp, Token(Kind.Name, "x"), Token(RPar, ")"), Token(Eof, "")]);
      ParseExpression(s, State(0, 0, []), Lowest) ==
        ExprParse(Prefix(neg, "-", Call(lp, Var("f"), [Var("x")])), State(4, 0, []))
  {
    var s := StreamOf([Token(Minus, "-"), Token(Kind.Name, "f"), Token(LPar, "("), Token(Kind.Name, "x"), Token(RPar, ")"), Token(Eof, "")]);
    assert NegatedCallTokens(s);
    NegatedCall(s);
  }

  lemma NegatedCall(s: Stream)
    requires NegatedCallTokens(s)
    ensures ParseExpression(s, State(0, 0, []), Lowest) ==
            ExprParse(Prefix(Token(Minus, "-"), "-", Call(Token(LPar, "("), Var("f"), [Var("x")])), State(4, 0, []))
  {
    NegatedCallPrefix(s);
    ExpressionOfPrefix(s, State(0, 0, []), Lowest,
                       Prefix(Token(Minus, "-"), "-", Call(Token(LPar, "("), Var("f"), [Var("x")])), State(4, 0, []));
  }

  lemma NegatedCallPrefix(s: Stream)
    requires NegatedCallTokens(s)
    ensures ParsePrefix(s, State(0, 0, [])) ==
            ExprParse(Prefix(Token(Minus, "-"), "-", Call(Token(LPar, "("), Var("f"), [Var("x")])), State(4, 0, []))
  {
    CallOperand(s);
    assert Advance(s, State(0, 0, [])) == State(1, 0, []);
    PrefixOfOperator(s, State(0, 0, []));
  }

  lemma CallOperand(s: Stream)
    requires NegatedCallTokens(s)
    ensures ParseExpression(s, State(1, 0, []), PrefixLevel) ==
            ExprParse(Call(Token(LPar, "("), Var("f"), [Var("x")]), State(4, 0, []))
  {
    PrefixOfName(s, State(1, 0, []));
    ExpressionUnfolds(s, State(1, 0, []), PrefixLevel);
    CallOperandLoop(s);
  }

  lemma CallOperandLoop(s: Stream)
    requires NegatedCallTokens(s)
    ensures InfixLoop(s, State(1, 0, []), PrefixLevel, Var("f")) ==
            ExprParse(Call(Token(LPar, "("), Var("f"), [Var("x")]), State(4, 0, []))
  {
    CallOfName(s);
    assert Advance(s, State(1, 0, [])) == State(2, 0, []);
    LoopOnce(s, State(1, 0, []), PrefixLevel, Var("f"), Call(Token(LPar, "("), Var("f"), [Var("x")]), State(4, 0, []));
  }

  lemma CallOfName(s: Stream)
    requires NegatedCallTokens(s)
    ensures ParseInfix(s, State(2, 0, []), Var("f")) ==
            ExprParse(Call(Token(LPar, "("), Var("f"), [Var("x")]), State(4, 0, []))
  {
    CallOfOneName(s);
    CallOfArguments(s, State(2, 0, []), Var("f"), [Var("x")], State(4, 0, []));
  }

  lemma CallOfOneName(s: Stream)
    requires NegatedCallTokens(s)
    ensures ParseCallArguments(s, State(2, 0, [])) == ArgsParse(Some([Var("x")]), State(4, 0, []))
  {
    var st3 := State(3, 0, []);
    assert [Var("x")] + [] == [Var("x")];
    assert Advance(s, st3) == State(4, 0, []);
    assert ParseCallArguments(s, State(2, 0, [])) == ArgsParse(Some([Var("x")] + []), State(4, 0, [])) by {
      assert Advance(s, State(2, 0, [])) == st3;
      NameAlone(s, st3, Lowest);
      assert ParseCommaTail(s, st3) == ExprsParse([], st3);
      ArgumentsOfParts(s, State(2, 0, []), Var("x"), st3, [], st3);
    }
  }

  // `f ( x`

  ghost predicate UnclosedCallTokens(s: Stream) {
    && s.Valid() && Flat(s) && |s.toks| == 4
    && s.toks[0] == Token(Kind.Name, "f") && s.toks[1] == Token(LPar, "(")
    && s.toks[2] == Token(Kind.Name, "x") && s.toks[3] == Token(Eof, "")
  }

  /** `f(x` records one expected-`)` error and gives a call with the nil argument list. */
  lemma UnclosedCallHasNoArguments()
    ensures
      var lp := Token(LPar, "(");
      var s := StreamOf([Token(Kind.Name, "f"), lp, Token(Kind.Name, "x"), Token(Eof, "")]);
      ParseExpression(s, State(0, 0, []), Lowest) ==
        ExprParse(Call(lp, Var("f"), []), State(2, 0, [ExpectedToken(RPar, Eof)]))
  {
    var s := StreamOf([Token(Kind.Name, "f"), Token(LPar, "("), Token(Kind.Name, "x"), Token(Eof, "")]);
    assert UnclosedCallTokens(s);
    UnclosedCall(s);
  }

  lemma UnclosedCall(s: Stream)
    requires UnclosedCallTokens(s)
    ensures ParseExpression(s, State(0, 0, []), Lowest) ==
            ExprParse(Call(Token(LPar, "("), Var("f"), []), State(2, 0, [ExpectedToken(RPar, Eof)]))
  {
    var st0 := State(0, 0, []);
    var failed := State(2, 0, [ExpectedToken(RPar, Eof)]);
    PrefixOfName(s, st0);
    UnclosedCallLoop(s);
    ExpressionOfLoop(s, st0, Lowest, ExprParse(Var("f"), st0), ExprParse(Call(Token(LPar, "("), Var("f"), []), failed));
  }

  lemma UnclosedCallLoop(s: Stream)
    requires UnclosedCallTokens(s)
    ensures InfixLoop(s, State(0, 0, []), Lowest, Var("f")) ==
            ExprParse(Call(Token(LPar, "("), Var("f"), []), State(2, 0, [ExpectedToken(RPar, Eof)]))
  {
    var st0 := State(0, 0, []);
    var failed := State(2, 0, [ExpectedToken(RPar, Eof)]);
    UnclosedCallInfix(s);
    assert Advance(s, st0) == State(1, 0, []);
    LoopOnce(s, st0, Lowest, Var("f"), Call(Token(LPar, "("), Var("f"), []), failed);
  }

  lemma UnclosedCallInfix(s: Stream)
    requires UnclosedCallTokens(s)
    ensures ParseInfix(s, State(1, 0, []), Var("f")) ==
            ExprParse(Call(Token(LPar, "("), Var("f"), []), State(2, 0, [ExpectedToken(RPar, Eof)]))
  {
    UnclosedCallArguments(s);
    CallOfNoArguments(s, State(1, 0, []), Var("f"), State(2, 0, [ExpectedToken(RPar, Eof)]));
  }

  lemma UnclosedCallArguments(s: Stream)
    requires UnclosedCallTokens(s)
    ensures ParseCallArguments(s, State(1, 0, [])) == ArgsParse(None, State(2, 0, [ExpectedToken(RPar, Eof)]))
  {
    var st2 := State(2, 0, []);
    assert AddError(st2, ExpectedToken(RPar, Eof)) == State(2, 0, [ExpectedToken(RPar, Eof)]);
    assert ParseCallArguments(s, State(1, 0, [])) ==
           ArgsParse(None, AddError(st2, ExpectedToken(RPar, PeekTok(s, st2).kind))) by {
      assert Advance(s, State(1, 0, [])) == st2;
      NameAlone(s, st2, Lowest);
      assert ParseCommaTail(s, st2) == ExprsParse([], st2);
      ArgumentsUnclosed(s, State(1, 0, []), Var("x"), st2, [], st2);
    }
  }

  // `[ 1 ]`

  ghost predicate SingletonTokens(s: Stream) {
    && s.Valid() && Flat(s) && |s.toks| == 4
    && s.toks[0] == Token(LBr, "[") && s.toks[1] == Token(Int, "1")
    && s.toks[2] == Token(RBr, "]") && s.toks[3] == Token(Eof, "")
  }

  /** `[1]` is nil with no error: a list needs a comma right after its first token. */
  lemma SingletonListIsNil()
    ensures
      var s := StreamOf([Token(LBr, "["), Token(Int, "1"), Token(RBr, "]"), Token(Eof, "")]);
      ParseExpression(s, State(0, 0, []), Lowest) == ExprParse(Missing, State(1, 0, []))
  {
    var s := StreamOf([Token(LBr, "["), Token(Int, "1"), Token(RBr, "]"), Token(Eof, "")]);
    assert SingletonTokens(s);
    SingletonList(s);
  }

  lemma SingletonList(s: Stream)
    requires SingletonTokens(s)
    ensures ParseExpression(s, State(0, 0, []), Lowest) == ExprParse(Missing, State(1, 0, []))
  {
    SingletonListPrefix(s);
    ExpressionOfPrefix(s, State(0, 0, []), Lowest, Missing, State(1, 0, []));
  }

  lemma SingletonListPrefix(s: Stream)
    requires SingletonTokens(s)
    ensures ParsePrefix(s, State(0, 0, [])) == ExprParse(Missing, State(1, 0, []))
  {
    assert Advance(s, State(0, 0, [])) == State(1, 0, []);
    assert PeekTok(s, State(1, 0, [])).kind == RBr;
    PrefixOfList(s, State(0, 0, []));
  }

  // `[ 1 , 2 ]`

  ghost predicate PairTokens(s: Stream) {
    && s.Valid() && Flat(s) && |s.toks| == 6
    && s.toks[0] == Token(LBr, "[") && s.toks[1] == Token(Int, "1") && s.toks[2] == Token(Comma, ",")
    && s.toks[3] == Token(Int, "2") && s.toks[4] == Token(RBr, "]") && s.toks[5] == Token(Eof, "")
  }

  /** `[1, 2]` is the list of both literals, ending on `]`. */
  lemma PairListParses()
    ensures
      var one, two := Token(Int, "1"), Token(Int, "2");
      var s := StreamOf([Token(LBr, "["), one, Token(Comma, ","), two, Token(RBr, "]"), Token(Eof, "")]);
      ParseExpression(s, State(0, 0, []), Lowest) ==
        ExprParse(ListLit([IntLit(one, 1), IntLit(two, 2)]), State(4, 0, []))
  {
    var s := StreamOf([Token(LBr, "["), Token(Int, "1"), Token(Comma, ","), Token(Int, "2"), Token(RBr, "]"), Token(Eof, "")]);
    assert PairTokens(s);
    PairListExpression(s);
  }

  lemma PairListExpression(s: Stream)
    requires PairTokens(s)
    ensures ParseExpression(s, State(0, 0, []), Lowest) ==
            ExprParse(ListLit([IntLit(Token(Int, "1"), 1), IntLit(Token(Int, "2"), 2)]), State(4, 0, []))
  {
    PairListPrefix(s);
    ExpressionOfPrefix(s, State(0, 0, []), Lowest,
                       ListLit([IntLit(Token(Int, "1"), 1), IntLit(Token(Int, "2"), 2)]), State(4, 0, []));
  }

  lemma PairListPrefix(s: Stream)
    requires PairTokens(s)
    ensures ParsePrefix(s, State(0, 0, [])) ==
            ExprParse(ListLit([IntLit(Token(Int, "1"), 1), IntLit(Token(Int, "2"), 2)]), State(4, 0, []))
  {
    PairList(s);
    PrefixOfList(s, State(0, 0, []));
  }

  lemma PairList(s: Stream)
    requires PairTokens(s)
    ensures ParseList(s, State(0, 0, [])) ==
            ExprParse(ListLit([IntLit(Token(Int, "1"), 1), IntLit(Token(Int, "2"), 2)]), State(4, 0, []))
  {
    var one, two := IntLit(Token(Int, "1"), 1), IntLit(Token(Int, "2"), 2);
    assert [one] + [two] == [one, two];
    assert Advance(s, State(3, 0, [])) == State(4, 0, []);
    assert ParseList(s, State(0, 0, [])) == ExprParse(ListLit([one] + [two]), State(4, 0, [])) by {
      assert Advance(s, State(0, 0, [])) == State(1, 0, []);
      PairListFirst(s);
      PairListTail(s);
      ListOfParts(s, State(0, 0, []), one, State(1, 0, []), [two], State(3, 0, []));
    }
  }

  lemma PairListFirst(s: Stream)
    requires PairTokens(s)
    ensures ParseExpression(s, State(1, 0, []), Lowest) == ExprParse(IntLit(Token(Int, "1"), 1), State(1, 0, []))
  {
    SmallLiterals();
    IntegerAlone(s, State(1, 0, []), Lowest, 1);
  }

  lemma PairListTail(s: Stream)
    requires PairTokens(s)
    ensures ParseCommaTail(s, State(1, 0, [])) == ExprsParse([IntLit(Token(Int, "2"), 2)], State(3, 0, []))
  {
    PairListSecond(s);
    assert Advance(s, Advance(s, State(1, 0, []))) == State(3, 0, []);
    CommaTailOfOne(s, State(1, 0, []), IntLit(Token(Int, "2"), 2), State(3, 0, []));
  }

  lemma PairListSecond(s: Stream)
    requires PairTokens(s)
    ensures ParseExpression(s, State(3, 0, []), Lowest) == ExprParse(IntLit(Token(Int, "2"), 2), State(3, 0, []))
  {
    SmallLiterals();
    IntegerAlone(s, State(3, 0, []), Lowest, 2);
  }

  // `x = 5`

  ghost predicate AssignTokens(s: Stream) {
    && s.Valid() && Flat(s) && |s.toks| == 4
    && s.toks[0] == Token(Kind.Name, "x") && s.toks[1] == Token(Kind.Assign, "=")
    && s.toks[2] == Token(Int, "5") && s.toks[3] == Token(Eof, "")
  }

  /** `x = 5` is one assignment carrying the `=` token, the name `x` and the literal. */
  lemma AssignmentParses()
    ensures
      var x, eq, five := Token(Kind.Name, "x"), Token(Kind.Assign, "="), Token(Int, "5");
      ParseProgram(StreamOf([x, eq, five, Token(Eof, "")])) ==
        ProgramParse(Program([Ast.Assign(eq, Ast.Name(x, "x"), IntLit(five, 5))]), [], 3)
  {
    var s := StreamOf([Token(Kind.Name, "x"), Token(Kind.Assign, "="), Token(Int, "5"), Token(Eof, "")]);
    assert AssignTokens(s);
    Assignment(s);
  }

  lemma Assignment(s: Stream)
    requires AssignTokens(s)
    ensures ParseProgram(s) ==
            ProgramParse(Program([Ast.Assign(Token(Kind.Assign, "="), Ast.Name(Token(Kind.Name, "x"), "x"), IntLit(Token(Int, "5"), 5))]), [], 3)
  {
    var stmt := Ast.Assign(Token(Kind.Assign, "="), Ast.Name(Token(Kind.Name, "x"), "x"), IntLit(Token(Int, "5"), 5));
    var st3 := State(3, 0, []);
    assert [stmt] + [] == [stmt];
    assert ProgramLoop(s, State(0, 0, [])) == StmtsParse([stmt] + [], st3) by {
      AssignmentStatement(s);
      assert Advance(s, State(2, 0, [])) == st3;
      assert ProgramLoop(s, st3) == StmtsParse([], st3);
    }
  }

  lemma AssignmentStatement(s: Stream)
    requires AssignTokens(s)
    ensures ParseStatement(s, State(0, 0, [])) ==
            StmtParse(Ast.Assign(Token(Kind.Assign, "="), Ast.Name(Token(Kind.Name, "x"), "x"), IntLit(Token(Int, "5"), 5)), State(2, 0, []))
  {
    var st0, st2 := State(0, 0, []), State(2, 0, []);
    assert Advance(s, Advance(s, st0)) == st2;
    AssignedValue(s);
    AssignOfValue(s, st0, ExprParse(IntLit(Token(Int, "5"), 5), st2));
  }

  lemma AssignedValue(s: Stream)
    requires AssignTokens(s)
    ensures ParseExpression(s, State(2, 0, []), Lowest) == ExprParse(IntLit(Token(Int, "5"), 5), State(2, 0, []))
  {
    SmallLiterals();
    IntegerAlone(s, State(2, 0, []), Lowest, 5);
  }

  // `if a : b`

  ghost predicate InlineIfTokens(s: Stream) {
    && s.Valid() && Flat(s) && |s.toks| == 5
    && s.toks[0] == Token(If, "if") && s.toks[1] == Token(Kind.Name, "a") && s.toks[2] == Token(Colon, ":")
    && s.toks[3] == Token(Kind.Name, "b") && s.toks[4] == Token(Eof, "")
  }

  /** The body `if a: b` gets: a nil statement for the colon, then `b`. */
  function ColonBody(): Block {
    Block(Token(Colon, ":"), [ExprStmt(Token(Colon, ":"), Missing), ExprStmt(Token(Kind.Name, "b"), Var("b"))])
  }

  /** An inline `if` body starts at the colon itself, so `if a: b` records a missing-prefix
      error for `:` and its body holds a nil statement before `b`. */
  lemma InlineIfStartsAtColon()
    ensures
      var iff, a, colon, b := Token(If, "if"), Token(Kind.Name, "a"), Token(Colon, ":"), Token(Kind.Name, "b");
      var s := StreamOf([iff, a, colon, b, Token(Eof, "")]);
      ParseExpression(s, State(0, 0, []), Lowest) ==
        ExprParse(IfExpr(iff, Ident(Ast.Name(a, "a")),
                         Block(colon, [ExprStmt(colon, Missing), ExprStmt(b, Ident(Ast.Name(b, "b")))]),
                         None),
                  State(4, 0, [NoPrefixParser(Colon, "b")]))
  {
    var s := StreamOf([Token(If, "if"), Token(Kind.Name, "a"), Token(Colon, ":"), Token(Kind.Name, "b"), Token(Eof, "")]);
    assert InlineIfTokens(s);
    InlineIfSteps(s);
  }

  lemma InlineIfSteps(s: Stream)
    requires InlineIfTokens(s)
    ensures ParseExpression(s, State(0, 0, []), Lowest) ==
            ExprParse(IfExpr(Token(If, "if"), Var("a"), ColonBody(), None), State(4, 0, [NoPrefixParser(Colon, "b")]))
  {
    InlineIfPrefix(s);
    ExpressionOfPrefix(s, State(0, 0, []), Lowest, IfExpr(Token(If, "if"), Var("a"), ColonBody(), None),
                       State(4, 0, [NoPrefixParser(Colon, "b")]));
  }

  lemma InlineIfPrefix(s: Stream)
    requires InlineIfTokens(s)
    ensures ParsePrefix(s, State(0, 0, [])) ==
            ExprParse(IfExpr(Token(If, "if"), Var("a"), ColonBody(), None), State(4, 0, [NoPrefixParser(Colon, "b")]))
  {
    var st0, st1, st2 := State(0, 0, []), State(1, 0, []), State(2, 0, []);
    PrefixOfIf(s, st0);
    assert Advance(s, st0) == st1;
    IfConditionStopsAtColon(s);
    assert ExpectColon(s, st1) == Step(true, st2);
    InlineIfBranches(s);
  }

  lemma InlineIfBranches(s: Stream)
    requires InlineIfTokens(s)
    ensures ParseIfBranches(s, State(2, 0, []), Token(If, "if"), Var("a")) ==
            ExprParse(IfExpr(Token(If, "if"), Var("a"), ColonBody(), None), State(4, 0, [NoPrefixParser(Colon, "b")]))
  {
    assert ParseIfBody(s, State(2, 0, [])) == BlockParse(ColonBody(), State(4, 0, [NoPrefixParser(Colon, "b")])) by {
      InlineBodyFromColon(s);
      assert ParseIfBody(s, State(2, 0, [])) == ParseInline(s, State(2, 0, []));
    }
  }

  lemma IfConditionStopsAtColon(s: Stream)
    requires InlineIfTokens(s)
    ensures ParseExpression(s, State(1, 0, []), Lowest) == ExprParse(Var("a"), State(1, 0, []))
  {
    assert PeekTok(s, State(1, 0, [])).kind == Colon;
    NameAlone(s, State(1, 0, []), Lowest);
  }

  lemma InlineBodyFromColon(s: Stream)
    requires InlineIfTokens(s)
    ensures InlineLoop(s, State(2, 0, [])) == StmtsParse(ColonBody().stmts, State(4, 0, [NoPrefixParser(Colon, "b")]))
  {
    var err := [NoPrefixParser(Colon, "b")];
    var first, second := ExprStmt(Token(Colon, ":"), Missing), ExprStmt(Token(Kind.Name, "b"), Var("b"));
    assert [first] + ([second] + []) == ColonBody().stmts;
    assert InlineLoop(s, State(2, 0, [])) == StmtsParse([first] + ([second] + []), State(4, 0, err)) by {
      InlineBodyFirst(s);
      InlineBodySecond(s);
      assert Advance(s, State(2, 0, err)) == State(3, 0, err);
      InlineStep(s, State(2, 0, []), StmtParse(first, State(2, 0, err)),
                 StmtsParse([second] + [], State(4, 0, err)));
    }
  }

  lemma InlineBodyFirst(s: Stream)
    requires InlineIfTokens(s)
    ensures ParseStatement(s, State(2, 0, [])) ==
            StmtParse(ExprStmt(Token(Colon, ":"), Missing), State(2, 0, [NoPrefixParser(Colon, "b")]))
  {
    NoPrefixStatement(s, State(2, 0, []));
  }

  lemma InlineBodySecond(s: Stream)
    requires InlineIfTokens(s)
    ensures var err := [NoPrefixParser(Colon, "b")];
            InlineLoop(s, State(3, 0, err)) ==
            StmtsParse([ExprStmt(Token(Kind.Name, "b"), Var("b"))] + [], State(4, 0, err))
  {
    var err := [NoPrefixParser(Colon, "b")];
    assert ParseStatement(s, State(3, 0, err)) == StmtParse(ExprStmt(Token(Kind.Name, "b"), Var("b")), State(3, 0, err)) by {
      NameStatementAlone(s, State(3, 0, err));
    }
    assert Advance(s, State(3, 0, err)) == State(4, 0, err);
    assert InlineLoop(s, State(4, 0, err)) == StmtsParse([], State(4, 0, err));
    InlineStep(s, State(3, 0, err), StmtParse(ExprStmt(Token(Kind.Name, "b"), Var("b")), State(3, 0, err)),
               StmtsParse([], State(4, 0, err)));
  }
}
