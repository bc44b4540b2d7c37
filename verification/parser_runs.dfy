/** The parser's repetition loops described without recursion. A run lists the states a
    loop passes through and what it parses at each of them; each lemma below shows that the
    loop's result is the one its run predicts, and that there is only one such run. */
module ParserRuns {
  import opened Wrappers
  import opened Tokens
  import opened Ast
  import opened Parser
  import ParserProps

  // ---------------------------------------------------------------------------------------
  // Statement sequences: inline bodies, indented blocks, whole programs.

  /** Where a statement loop stops: an inline body on NEWL or EOF, a block on EOF or a token
      shallower than the block's depth, a program on EOF. */
  datatype Until = LineEnd | Dedent(depth: nat) | ProgramEnd

  ghost predicate Stops(s: Stream, st: State, u: Until)
    requires Inv(s, st)
  {
    match u
    case LineEnd => Cur(s, st).kind in {Eof, Newl}
    case Dedent(d) => Cur(s, st).kind == Eof || st.depth < d
    case ProgramEnd => Cur(s, st).kind == Eof
  }

  /** One round of a statement loop: `at` is not a stopping point, `step` is the statement
      read there, and the next round starts on the token after its last one. */
  ghost predicate StatementStep(s: Stream, u: Until, step: StmtParse, at: State, next: State) {
    && Inv(s, at) && !Stops(s, at, u)
    && step == ParseStatement(s, at)
    && next == Advance(s, step.st)
  }

  /** `steps[j]` is the round taken at `starts[j]`, and the last start is a stopping point. */
  ghost predicate StatementRun(s: Stream, u: Until, steps: seq<StmtParse>, starts: seq<State>) {
    && |starts| == |steps| + 1
    && (forall j :: 0 <= j < |steps| ==> StatementStep(s, u, steps[j], starts[j], starts[j + 1]))
    && Inv(s, starts[|steps|]) && Stops(s, starts[|steps|], u)
  }

  function StmtsOf(steps: seq<StmtParse>): (r: seq<Stmt>)
    ensures |r| == |steps| && forall j :: 0 <= j < |steps| ==> r[j] == steps[j].stmt
  {
    if steps == [] then [] else [steps[0].stmt] + StmtsOf(steps[1..])
  }

  /** A run that starts with one more round. */
  lemma StatementRunCons(s: Stream, u: Until, first: StmtParse, st: State,
                         steps: seq<StmtParse>, starts: seq<State>)
    requires StatementRun(s, u, steps, starts) && StatementStep(s, u, first, st, starts[0])
    ensures StatementRun(s, u, [first] + steps, [st] + starts)
  {
    var all, at := [first] + steps, [st] + starts;
    forall j | 0 <= j < |all|
      ensures StatementStep(s, u, all[j], at[j], at[j + 1])
    {
      if j > 0 {
        assert all[j] == steps[j - 1] && at[j] == starts[j - 1] && at[j + 1] == starts[j];
      }
    }
    assert at[|all|] == starts[|steps|];
  }

  /** The rounds after the first. */
  lemma StatementRunTail(s: Stream, u: Until, steps: seq<StmtParse>, starts: seq<State>)
    requires StatementRun(s, u, steps, starts) && |steps| > 0
    ensures StatementRun(s, u, steps[1..], starts[1..])
  {
    forall j | 0 <= j < |steps| - 1
      ensures StatementStep(s, u, steps[1..][j], starts[1..][j], starts[1..][j + 1])
    {
      assert steps[1..][j] == steps[j + 1];
      assert starts[1..][j] == starts[j + 1] && starts[1..][j + 1] == starts[j + 2];
    }
  }

  /** A run is empty exactly when it starts on a stopping point. */
  lemma StatementRunStops(s: Stream, u: Until, steps: seq<StmtParse>, starts: seq<State>)
    requires StatementRun(s, u, steps, starts)
    ensures Inv(s, starts[0]) && (|steps| == 0 <==> Stops(s, starts[0], u))
  {
    if |steps| > 0 {
      assert StatementStep(s, u, steps[0], starts[0], starts[1]);
    }
  }

  /** Two runs from the same state are the same run: a loop's run is determined. */
  lemma {:induction false} StatementRunIsUnique(s: Stream, u: Until, steps: seq<StmtParse>, starts: seq<State>,
                                                steps': seq<StmtParse>, starts': seq<State>)
    requires StatementRun(s, u, steps, starts) && StatementRun(s, u, steps', starts')
    requires starts[0] == starts'[0]
    ensures steps == steps' && starts == starts'
    decreases |steps|
  {
    StatementRunStops(s, u, steps, starts);
    StatementRunStops(s, u, steps', starts');
    if |steps| > 0 {
      assert StatementStep(s, u, steps[0], starts[0], starts[1]);
      assert StatementStep(s, u, steps'[0], starts'[0], starts'[1]);
      StatementRunTail(s, u, steps, starts);
      StatementRunTail(s, u, steps', starts');
      StatementRunIsUnique(s, u, steps[1..], starts[1..], steps'[1..], starts'[1..]);
      SameHeadSameTail(steps, steps');
      SameHeadSameTail(starts, starts');
    }
  }

  /** Two non-empty sequences with the same first element and the same rest are equal. */
  lemma SameHeadSameTail<T>(a: seq<T>, b: seq<T>)
    requires |a| > 0 && |b| > 0 && a[0] == b[0] && a[1..] == b[1..]
    ensures a == b
  {
    assert a == [a[0]] + a[1..] && b == [b[0]] + b[1..];
  }

  lemma BlockStep(s: Stream, st: State, depth: nat, first: StmtParse, rest: StmtsParse)
    requires Inv(s, st) && !(Cur(s, st).kind == Eof || st.depth < depth)
    requires ParseStatement(s, st) == first && Inv(s, first.st)
    requires BlockLoop(s, Advance(s, first.st), depth) == rest
    ensures BlockLoop(s, st, depth) == StmtsParse([first.stmt] + rest.stmts, rest.st)
  {
  }

  lemma ProgramLoopStep(s: Stream, st: State, first: StmtParse, rest: StmtsParse)
    requires Inv(s, st) && Cur(s, st).kind != Eof
    requires ParseStatement(s, st) == first && Inv(s, first.st)
    requires ProgramLoop(s, Advance(s, first.st)) == rest
    ensures ProgramLoop(s, st) == StmtsParse([first.stmt] + rest.stmts, rest.st)
  {
  }

  /** The statements of an inline body are those of its run up to NEWL or EOF. */
  lemma {:induction false} InlineLoopRun(s: Stream, st: State) returns (steps: seq<StmtParse>, starts: seq<State>)
    requires Inv(s, st)
    ensures StatementRun(s, LineEnd, steps, starts) && starts[0] == st
    ensures InlineLoop(s, st) == StmtsParse(StmtsOf(steps), starts[|steps|])
    decreases |s.toks| - st.pos
  {
    if Cur(s, st).kind in {Eof, Newl} {
      steps, starts := [], [st];
    } else {
      var first := ParseStatement(s, st);
      var more, rest := InlineLoopRun(s, Advance(s, first.st));
      ParserProps.InlineStep(s, st, first, InlineLoop(s, Advance(s, first.st)));
      assert StatementStep(s, LineEnd, first, st, rest[0]);
      StatementRunCons(s, LineEnd, first, st, more, rest);
      steps, starts := [first] + more, [st] + rest;
      assert steps[1..] == more;
    }
  }

  /** The statements of an indented block are those of its run up to EOF or a shallower
      token. */
  lemma {:induction false} BlockLoopRun(s: Stream, st: State, depth: nat) returns (steps: seq<StmtParse>, starts: seq<State>)
    requires Inv(s, st)
    ensures StatementRun(s, Dedent(depth), steps, starts) && starts[0] == st
    ensures BlockLoop(s, st, depth) == StmtsParse(StmtsOf(steps), starts[|steps|])
    decreases |s.toks| - st.pos
  {
    if Cur(s, st).kind == Eof || st.depth < depth {
      steps, starts := [], [st];
    } else {
      var first := ParseStatement(s, st);
      var more, rest := BlockLoopRun(s, Advance(s, first.st), depth);
      BlockStep(s, st, depth, first, BlockLoop(s, Advance(s, first.st), depth));
      assert StatementStep(s, Dedent(depth), first, st, rest[0]);
      StatementRunCons(s, Dedent(depth), first, st, more, rest);
      steps, starts := [first] + more, [st] + rest;
      assert steps[1..] == more;
    }
  }

  /** The statements of a program are those of its run up to EOF. */
  lemma {:induction false} ProgramLoopRun(s: Stream, st: State) returns (steps: seq<StmtParse>, starts: seq<State>)
    requires Inv(s, st)
    ensures StatementRun(s, ProgramEnd, steps, starts) && starts[0] == st
    ensures ProgramLoop(s, st) == StmtsParse(StmtsOf(steps), starts[|steps|])
    decreases |s.toks| - st.pos
  {
    if Cur(s, st).kind == Eof {
      steps, starts := [], [st];
    } else {
      var first := ParseStatement(s, st);
      var more, rest := ProgramLoopRun(s, Advance(s, first.st));
      ProgramLoopStep(s, st, first, ProgramLoop(s, Advance(s, first.st)));
      assert StatementStep(s, ProgramEnd, first, st, rest[0]);
      StatementRunCons(s, ProgramEnd, first, st, more, rest);
      steps, starts := [first] + more, [st] + rest;
      assert steps[1..] == more;
    }
  }

  /** `parseInlineStatement` from any state: the block's token is the one it starts on and its
      statements are those of the run from there to the end of the line. */
  lemma InlineBodyIsRun(s: Stream, st: State) returns (steps: seq<StmtParse>, starts: seq<State>)
    requires Inv(s, st)
    ensures StatementRun(s, LineEnd, steps, starts) && starts[0] == st
    ensures ParseInline(s, st) == BlockParse(Block(Cur(s, st), StmtsOf(steps)), starts[|steps|])
  {
    steps, starts := InlineLoopRun(s, st);
  }

  /** `parseBlockStatement` from any state: the block's token is the NEWL it is entered on,
      and its statements are those of the run from the next token, at that token's depth,
      until EOF or a shallower token. */
  lemma BlockIsRun(s: Stream, st: State) returns (steps: seq<StmtParse>, starts: seq<State>)
    requires Inv(s, st)
    ensures var st1 := Advance(s, st);
            && StatementRun(s, Dedent(st1.depth), steps, starts) && starts[0] == st1
            && ParseBlock(s, st) == BlockParse(Block(Cur(s, st), StmtsOf(steps)), starts[|steps|])
  {
    var st1 := Advance(s, st);
    steps, starts := BlockLoopRun(s, st1, st1.depth);
  }

  /** `ParseProgram` on any stream: the program's statements are those of the run from the
      first token to EOF, and its errors and stopping point are the run's last state's. */
  lemma ProgramIsRun(s: Stream) returns (steps: seq<StmtParse>, starts: seq<State>)
    requires s.Valid()
    ensures StatementRun(s, ProgramEnd, steps, starts) && starts[0] == State(0, 0, [])
    ensures var end := starts[|steps|];
            ParseProgram(s) == ProgramParse(Program(StmtsOf(steps)), end.errors, end.pos)
  {
    steps, starts := ProgramLoopRun(s, State(0, 0, []));
  }

  // ---------------------------------------------------------------------------------------
  // Comma-separated expressions: list elements and call arguments.

  /** One round of the comma loop: a comma follows `at`, `item` is the expression read after
      it, and the next round starts where that expression ended. */
  ghost predicate CommaStep(s: Stream, item: ExprParse, at: State, next: State) {
    && Inv(s, at) && PeekTok(s, at).kind == Comma
    && item == ParseExpression(s, Advance(s, Advance(s, at)), Lowest)
    && next == item.st
  }

  /** `items[j]` is the round taken at `starts[j]`, and no comma follows the last start. */
  ghost predicate CommaRun(s: Stream, items: seq<ExprParse>, starts: seq<State>) {
    && |starts| == |items| + 1
    && (forall j :: 0 <= j < |items| ==> CommaStep(s, items[j], starts[j], starts[j + 1]))
    && Inv(s, starts[|items|]) && PeekTok(s, starts[|items|]).kind != Comma
  }

  function ExprsOf(items: seq<ExprParse>): (r: seq<Expr>)
    ensures |r| == |items| && forall j :: 0 <= j < |items| ==> r[j] == items[j].e
  {
    if items == [] then [] else [items[0].e] + ExprsOf(items[1..])
  }

  /** The comma loop from any state yields the expressions of its run and stops at the run's
      last state. */
  lemma {:induction false} CommaTailRun(s: Stream, st: State) returns (items: seq<ExprParse>, starts: seq<State>)
    requires Inv(s, st)
    ensures CommaRun(s, items, starts) && starts[0] == st
    ensures ParseCommaTail(s, st) == ExprsParse(ExprsOf(items), starts[|items|])
    decreases |s.toks| - st.pos
  {
    if PeekTok(s, st).kind != Comma {
      items, starts := [], [st];
    } else {
      var item := ParseExpression(s, Advance(s, Advance(s, st)), Lowest);
      var more, rest := CommaTailRun(s, item.st);
      ParserProps.CommaTailStep(s, st);
      assert CommaStep(s, item, st, rest[0]);
      items, starts := [item] + more, [st] + rest;
      forall j | 0 <= j < |items|
        ensures CommaStep(s, items[j], starts[j], starts[j + 1])
      {
        if j > 0 {
          assert items[j] == more[j - 1] && starts[j] == rest[j - 1] && starts[j + 1] == rest[j];
        }
      }
      assert starts[|items|] == rest[|more|];
      assert items[1..] == more;
    }
  }

  /** The rounds after the first. */
  lemma CommaRunTail(s: Stream, items: seq<ExprParse>, starts: seq<State>)
    requires CommaRun(s, items, starts) && |items| > 0
    ensures CommaRun(s, items[1..], starts[1..])
  {
    forall j | 0 <= j < |items| - 1
      ensures CommaStep(s, items[1..][j], starts[1..][j], starts[1..][j + 1])
    {
      assert items[1..][j] == items[j + 1];
      assert starts[1..][j] == starts[j + 1] && starts[1..][j + 1] == starts[j + 2];
    }
  }

  /** A comma run is empty exactly when no comma follows its start. */
  lemma CommaRunStops(s: Stream, items: seq<ExprParse>, starts: seq<State>)
    requires CommaRun(s, items, starts)
    ensures Inv(s, starts[0]) && (|items| == 0 <==> PeekTok(s, starts[0]).kind != Comma)
  {
    if |items| > 0 {
      assert CommaStep(s, items[0], starts[0], starts[1]);
    }
  }

  /** Two comma runs from the same state are the same run. */
  lemma {:induction false} CommaRunIsUnique(s: Stream, items: seq<ExprParse>, starts: seq<State>,
                                            items': seq<ExprParse>, starts': seq<State>)
    requires CommaRun(s, items, starts) && CommaRun(s, items', starts') && starts[0] == starts'[0]
    ensures items == items' && starts == starts'
    decreases |items|
  {
    CommaRunStops(s, items, starts);
    CommaRunStops(s, items', starts');
    if |items| > 0 {
      assert CommaStep(s, items[0], starts[0], starts[1]);
      assert CommaStep(s, items'[0], starts'[0], starts'[1]);
      CommaRunTail(s, items, starts);
      CommaRunTail(s, items', starts');
      CommaRunIsUnique(s, items[1..], starts[1..], items'[1..], starts'[1..]);
      SameHeadSameTail(items, items');
      SameHeadSameTail(starts, starts');
    }
  }

  /** `parseListExpression` when a comma follows the token after `[`: the first element is
      the expression read from that token, the rest are the comma run after it, and the list
      is built exactly when `]` follows; otherwise it is nil with one expected-`]` error. */
  lemma ListIsRun(s: Stream, st: State) returns (first: ExprParse, items: seq<ExprParse>, starts: seq<State>)
    requires Inv(s, st) && Cur(s, st).kind != Eof && PeekTok(s, Advance(s, st)).kind == Comma
    ensures first == ParseExpression(s, Advance(s, st), Lowest)
    ensures CommaRun(s, items, starts) && starts[0] == first.st
    ensures var end := starts[|items|];
            var r := ParseList(s, st);
            if PeekTok(s, end).kind == RBr
            then r == ExprParse(ListLit([first.e] + ExprsOf(items)), Advance(s, end))
            else r == ExprParse(Missing, AddError(end, ExpectedToken(RBr, PeekTok(s, end).kind)))
  {
    first := ParseExpression(s, Advance(s, st), Lowest);
    items, starts := CommaTailRun(s, first.st);
  }

  /** `parseCallArguments` when `)` does not follow `(`: the first argument is the expression
      read from the next token, the rest are the comma run after it, and the list exists
      exactly when `)` follows; otherwise it is nil with one expected-`)` error. */
  lemma ArgumentsAreRun(s: Stream, st: State) returns (first: ExprParse, items: seq<ExprParse>, starts: seq<State>)
    requires Inv(s, st) && Cur(s, st).kind != Eof && PeekTok(s, st).kind != RPar
    ensures first == ParseExpression(s, Advance(s, st), Lowest)
    ensures CommaRun(s, items, starts) && starts[0] == first.st
    ensures var end := starts[|items|];
            var r := ParseCallArguments(s, st);
            if PeekTok(s, end).kind == RPar
            then r == ArgsParse(Some([first.e] + ExprsOf(items)), Advance(s, end))
            else r == ArgsParse(None, AddError(end, ExpectedToken(RPar, PeekTok(s, end).kind)))
  {
    first := ParseExpression(s, Advance(s, st), Lowest);
    items, starts := CommaTailRun(s, first.st);
  }

  // ---------------------------------------------------------------------------------------
  // Function parameters.

  /** The states at which parameter names are read: each one after the first is two tokens
      past a state whose peek token is a comma, and no comma follows the last. */
  ghost predicate NameRun(s: Stream, starts: seq<State>) {
    && |starts| >= 1
    && (forall j :: 0 <= j < |starts| ==> Inv(s, starts[j]))
    && (forall j :: 0 <= j < |starts| - 1 ==> NameStep(s, starts[j], starts[j + 1]))
    && PeekTok(s, starts[|starts| - 1]).kind != Comma
  }

  /** One round of the name loop: a comma follows `at`, and the next name is the token after
      it. */
  ghost predicate NameStep(s: Stream, at: State, next: State) {
    Inv(s, at) && PeekTok(s, at).kind == Comma && next == Advance(s, Advance(s, at))
  }

  /** The name read at each state: whatever token is current there, its literal as the
      name's text. */
  ghost function NamesAt(s: Stream, starts: seq<State>): (r: seq<Name>)
    requires forall j :: 0 <= j < |starts| ==> Inv(s, starts[j])
    ensures |r| == |starts|
    ensures forall j :: 0 <= j < |starts| ==> r[j] == Ast.Name(Cur(s, starts[j]), Cur(s, starts[j]).literal)
  {
    if starts == [] then [] else [Ast.Name(Cur(s, starts[0]), Cur(s, starts[0]).literal)] + NamesAt(s, starts[1..])
  }

  lemma NameTailStep(s: Stream, st: State)
    requires Inv(s, st) && PeekTok(s, st).kind == Comma
    ensures var st1 := Advance(s, Advance(s, st));
            var rest := ParseNameTail(s, st1);
            ParseNameTail(s, st) == NamesParse([Ast.Name(Cur(s, st1), Cur(s, st1).literal)] + rest.names, rest.st)
  {
  }

  /** The name loop from any state reads the names at the run's later states and stops at its
      last one. */
  lemma {:induction false} NameTailRun(s: Stream, st: State) returns (starts: seq<State>)
    requires Inv(s, st)
    ensures NameRun(s, starts) && starts[0] == st
    ensures ParseNameTail(s, st) == NamesParse(NamesAt(s, starts[1..]), starts[|starts| - 1])
    decreases |s.toks| - st.pos
  {
    if PeekTok(s, st).kind != Comma {
      starts := [st];
      assert starts[1..] == [];
    } else {
      var st1 := Advance(s, Advance(s, st));
      var rest := NameTailRun(s, st1);
      NameTailStep(s, st);
      NameRunCons(s, st, rest);
      starts := [st] + rest;
      assert starts[1..] == rest;
      assert NamesAt(s, rest) == [Ast.Name(Cur(s, st1), Cur(s, st1).literal)] + NamesAt(s, rest[1..]);
      assert starts[|starts| - 1] == rest[|rest| - 1];
    }
  }

  /** A name run that starts with one more round. */
  lemma NameRunCons(s: Stream, st: State, rest: seq<State>)
    requires NameRun(s, rest) && NameStep(s, st, rest[0])
    ensures NameRun(s, [st] + rest)
  {
    var starts := [st] + rest;
    forall j | 0 <= j < |starts|
      ensures Inv(s, starts[j])
    {
      if j > 0 {
        assert starts[j] == rest[j - 1];
      }
    }
    forall j | 0 <= j < |starts| - 1
      ensures NameStep(s, starts[j], starts[j + 1])
    {
      if j > 0 {
        assert starts[j] == rest[j - 1] && starts[j + 1] == rest[j];
      }
    }
    assert starts[|starts| - 1] == rest[|rest| - 1];
  }

  /** `parseFunctionArguments` when `)` does not follow `(`: the parameters are the names at
      the states of the run that starts on the next token, every name's text is its token's
      literal, and the list exists exactly when `)` follows the last; otherwise it is nil with
      one expected-`)` error. */
  lemma ParametersAreRun(s: Stream, st: State) returns (starts: seq<State>)
    requires Inv(s, st) && PeekTok(s, st).kind != RPar
    ensures NameRun(s, starts) && starts[0] == Advance(s, st)
    ensures forall j :: 0 <= j < |starts| ==> starts[j].errors == st.errors
    ensures var end := starts[|starts| - 1];
            var r := ParseParameters(s, st);
            if PeekTok(s, end).kind == RPar
            then r == ParamsParse(Some(NamesAt(s, starts)), Advance(s, end))
            else r == ParamsParse(None, AddError(end, ExpectedToken(RPar, PeekTok(s, end).kind)))
  {
    var st1 := Advance(s, st);
    var rest := NameTailRun(s, st1);
    starts := rest;
    assert NamesAt(s, starts) == [Ast.Name(Cur(s, st1), Cur(s, st1).literal)] + NamesAt(s, rest[1..]);
    NameRunKeepsErrors(s, starts);
  }

  /** The later states of a name run. */
  lemma NameRunTail(s: Stream, starts: seq<State>)
    requires NameRun(s, starts) && |starts| > 1
    ensures NameRun(s, starts[1..])
  {
    forall j | 0 <= j < |starts| - 2
      ensures NameStep(s, starts[1..][j], starts[1..][j + 1])
    {
      assert starts[1..][j] == starts[j + 1] && starts[1..][j + 1] == starts[j + 2];
    }
  }

  /** A name run has one state exactly when no comma follows its start. */
  lemma NameRunStops(s: Stream, starts: seq<State>)
    requires NameRun(s, starts)
    ensures |starts| == 1 <==> PeekTok(s, starts[0]).kind != Comma
  {
    if |starts| > 1 {
      assert NameStep(s, starts[0], starts[1]);
    }
  }

  /** Two name runs from the same state are the same run. */
  lemma {:induction false} NameRunIsUnique(s: Stream, starts: seq<State>, starts': seq<State>)
    requires NameRun(s, starts) && NameRun(s, starts') && starts[0] == starts'[0]
    ensures starts == starts'
    decreases |starts|
  {
    NameRunStops(s, starts);
    NameRunStops(s, starts');
    if |starts| > 1 {
      assert NameStep(s, starts[0], starts[1]) && NameStep(s, starts'[0], starts'[1]);
      NameRunTail(s, starts);
      NameRunTail(s, starts');
      NameRunIsUnique(s, starts[1..], starts'[1..]);
      SameHeadSameTail(starts, starts');
    }
  }

  /** Reading names records no errors. */
  lemma NameRunKeepsErrors(s: Stream, starts: seq<State>)
    requires NameRun(s, starts)
    ensures forall j :: 0 <= j < |starts| ==> starts[j].errors == starts[0].errors
  {
    var j := 0;
    while j < |starts| - 1
      invariant 0 <= j <= |starts| - 1
      invariant forall i :: 0 <= i <= j ==> starts[i].errors == starts[0].errors
    {
      assert NameStep(s, starts[j], starts[j + 1]);
      j := j + 1;
    }
  }

  // ---------------------------------------------------------------------------------------
  // Inline `if` bodies.

  /** An inline body starts on the colon itself, which has no prefix handler: over every
      stream, such a body's block token is the colon, its first statement is a nil expression
      statement on the colon, and the no-prefix error for `:` is among the errors after it. */
  lemma InlineBodyOpensWithNil(s: Stream, st: State)
    requires Inv(s, st) && Cur(s, st).kind == Colon && PeekTok(s, st).kind != Newl
    ensures var b := ParseIfBody(s, st);
            && b.block.tok == Cur(s, st)
            && |b.block.stmts| >= 1 && b.block.stmts[0] == ExprStmt(Cur(s, st), Missing)
            && NoPrefixParser(Colon, PeekTok(s, st).literal) in b.st.errors
  {
    var err := NoPrefixParser(Colon, PeekTok(s, st).literal);
    var first := ParseStatement(s, st);
    ParserProps.NoPrefixStatement(s, st);
    var rest := InlineLoop(s, Advance(s, first.st));
    ParserProps.InlineStep(s, st, first, rest);
    assert first.st.errors[|st.errors|] == err;
    assert rest.st.errors[|st.errors|] == err;
  }

  /** `parseIfExpression` over every stream whose colon is followed on the same line: the
      consequence is an inline body, so it opens with the nil statement on the colon. */
  lemma InlineConsequenceOpensWithNil(s: Stream, st: State)
    requires Inv(s, st) && Cur(s, st).kind != Eof
    requires var cond := ParseExpression(s, Advance(s, st), Lowest);
             var colon := ExpectColon(s, cond.st);
             colon.ok && PeekTok(s, colon.st).kind != Newl
    ensures var r := ParseIf(s, st);
            var colon := ExpectColon(s, ParseExpression(s, Advance(s, st), Lowest).st);
            && r.e.IfExpr? && r.e.tok == Cur(s, st) && r.e.cond == ParseExpression(s, Advance(s, st), Lowest).e
            && |r.e.cons.stmts| >= 1 && r.e.cons.stmts[0] == ExprStmt(Cur(s, colon.st), Missing)
            && r.e.alt.None?
            && NoPrefixParser(Colon, PeekTok(s, colon.st).literal) in r.st.errors
  {
    var cond := ParseExpression(s, Advance(s, st), Lowest);
    var colon := ExpectColon(s, cond.st);
    var cons := ParseIfBody(s, colon.st);
    InlineBodyOpensWithNil(s, colon.st);
    var r := ParseIfBranches(s, colon.st, Cur(s, st), cond.e);
    assert ParseIf(s, st) == r;
    var err := NoPrefixParser(Colon, PeekTok(s, colon.st).literal);
    assert Cur(s, cons.st).kind in {Eof, Newl};
    assert r == ExprParse(IfExpr(Cur(s, st), cond.e, cons.block, None), cons.st);
  }
}
