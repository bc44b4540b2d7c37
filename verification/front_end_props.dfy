/** Properties of the front end as a whole: a source text lexed on demand and parsed, as
    parser.GetParser and Parser.ParseProgram run it, and the token literals the syntax tree
    reports for what was parsed. */
module FrontEndProps {
  import opened Wrappers
  import opened Tokens
  import opened Ast
  import opened Parser
  import Lexer
  import TokenStream
  import ParserRuns

  // ---------------------------------------------------------------------------------------
  // When the lexer panics.

  /** A text whose first token is EOF (an empty or blank text, or one starting with a 0 byte)
      is the empty program. Only the token after that EOF is ever read, so the lexer panics
      only when that very token is illegal; whatever follows it is never looked at. */
  lemma StopsAtLeadingEof(source: string)
    ensures var lx := TokenStream.Tokenize(source);
            |lx.toks| >= 1 && lx.toks[0].kind == Eof ==>
              && (Parse(source).LexerPanic? <==> lx.bad.Some? && |lx.toks| == 1)
              && (Parse(source).Parsed? ==> Parse(source) == Parsed(Program([]), []))
  {
    var lx := TokenStream.Tokenize(source);
    if |lx.toks| >= 1 && lx.toks[0].kind == Eof {
      var toks := StreamTokens(lx);
      assert toks[0] == lx.toks[0];
    }
  }

  /** A text made only of characters that start tokens and blanks never panics. */
  lemma CleanSourceParses(source: string)
    ensures (forall k :: 0 <= k < |source| ==> Lexer.StartsToken(source[k]) || Lexer.IsSpace(source[k])) ==>
            Parse(source).Parsed?
  {
    TokenStream.TokenizeClean(source);
  }

  /** `"\x00a$"`: the parser stops on the leading EOF after reading only `a` as its lookahead,
      so the `$` is never scanned and the program is empty. */
  lemma IllegalAfterEofIsNeverRead()
    ensures Parse([Lexer.Nul, 'a', '$']) == Parsed(Program([]), [])
  {
    LexEofNameIllegal();
    StopsAtLeadingEof([Lexer.Nul, 'a', '$']);
  }

  lemma LexEofNameIllegal()
    ensures TokenStream.Tokenize([Lexer.Nul, 'a', '$']) ==
            TokenStream.Lexed([Token(Eof, ""), Token(Kind.Name, "a")], Some('$'))
  {
    var input := [Lexer.Nul, 'a', '$'];
    var name := Token(Kind.Name, "a");
    assert TokenStream.TokenizeFrom(input, 1) == TokenStream.Lexed([name], Some('$')) by {
      DollarIsIllegal(input, 2);
      TokenizeIllegal(input, 2, '$');
      ScanNameA(input);
      TokenizeScanned(input, 1, name, 2);
      assert [name] + [] == [name];
    }
    TokenStream.NulReadsAsEof(input, 0);
    TokenizeScanned(input, 0, Token(Eof, ""), 1);
  }

  lemma ScanNameA(input: string)
    requires input == [Lexer.Nul, 'a', '$']
    ensures Lexer.NextToken(input, 1) == Lexer.Scanned(Token(Kind.Name, "a"), 2)
  {
    assert Lexer.TokenStart(input, 1) == 1;
    ScanAIsName(input, 1);
    assert Lexer.LetterRunEnd(input, 2) == 2;
    assert input[1..2] == "a";
  }

  /** An `a` starts a name. */
  lemma ScanAIsName(input: string, p: nat)
    requires Lexer.Ch(input, p) == 'a'
    ensures Lexer.ScanAt(input, p) == Lexer.ScanName(input, p)
  {
    assert Lexer.OneCharKind('a') == None;
  }

  /** A `$` is read as the illegal character. */
  lemma DollarIsIllegal(input: string, pos: nat)
    requires pos < |input| && input[pos] == '$'
    ensures Lexer.NextToken(input, pos) == Lexer.Illegal('$')
  {
    assert Lexer.TokenStart(input, pos) == pos;
    assert Lexer.Ch(input, pos) == '$' && !Lexer.StartsToken('$');
  }

  /** The lexer panics on the token read at `pos`. */
  lemma TokenizeIllegal(input: string, pos: nat, c: char)
    requires pos <= |input| + 1 && Lexer.NextToken(input, pos) == Lexer.Illegal(c)
    ensures TokenStream.TokenizeFrom(input, pos) == TokenStream.Lexed([], Some(c))
  {
  }

  /** The token read at `pos`, then the rest of the stream. */
  lemma TokenizeScanned(input: string, pos: nat, tok: Token, next: nat)
    requires pos <= |input| + 1 && Lexer.NextToken(input, pos) == Lexer.Scanned(tok, next)
    requires !(tok.kind == Eof && next > |input|)
    ensures next <= |input| + 1
    ensures var rest := TokenStream.TokenizeFrom(input, next);
            TokenStream.TokenizeFrom(input, pos) == TokenStream.Lexed([tok] + rest.toks, rest.bad)
  {
  }

  /** `"\x00$"`: the lookahead the parser reads at the start is the `$` itself, so the lexer
      panics although the program would be empty. */
  lemma IllegalLookaheadPanics()
    ensures Parse([Lexer.Nul, '$']) == LexerPanic('$')
  {
    LexEofIllegal();
    StopsAtLeadingEof([Lexer.Nul, '$']);
  }

  lemma LexEofIllegal()
    ensures TokenStream.Tokenize([Lexer.Nul, '$']) == TokenStream.Lexed([Token(Eof, "")], Some('$'))
  {
    var input := [Lexer.Nul, '$'];
    DollarIsIllegal(input, 1);
    TokenizeIllegal(input, 1, '$');
    TokenStream.NulReadsAsEof(input, 0);
    TokenizeScanned(input, 0, Token(Eof, ""), 1);
    assert [Token(Eof, "")] + [] == [Token(Eof, "")];
  }

  // ---------------------------------------------------------------------------------------
  // Token literals of parsed programs.

  /** An assignment node carries a token of the stream of kind ASSIGN, and its name's text
      is its name token's literal. */
  ghost predicate TokenedAssign(s: Stream, stmt: Stmt) {
    stmt.Assign? ==>
      stmt.tok in s.toks && stmt.tok.kind == Kind.Assign && stmt.name.value == stmt.name.tok.literal
  }

  lemma StatementAssignTokened(s: Stream, st: State)
    requires Inv(s, st)
    ensures TokenedAssign(s, ParseStatement(s, st).stmt)
  {
    if ParseStatement(s, st).stmt.Assign? {
      assert PeekTok(s, st).kind == Kind.Assign;
      assert s.toks[st.pos + 1] in s.toks;
    }
  }

  /** Over every stream, every top-level assignment `ParseProgram` builds is a
      `TokenedAssign`. */
  lemma ProgramAssignmentsTokened(s: Stream)
    requires s.Valid()
    ensures var p := ParseProgram(s).program;
            forall i :: 0 <= i < |p.stmts| ==> TokenedAssign(s, p.stmts[i])
  {
    var steps, starts := ParserRuns.ProgramIsRun(s);
    var p := ParseProgram(s).program;
    forall i | 0 <= i < |p.stmts|
      ensures TokenedAssign(s, p.stmts[i])
    {
      assert ParserRuns.StatementStep(s, ParserRuns.ProgramEnd, steps[i], starts[i], starts[i + 1]);
      StatementAssignTokened(s, starts[i]);
    }
  }

  /** What the lexer guarantees the parser: without a panic the tokens end in EOF, and every
      ASSIGN token is spelled `=`. */
  ghost predicate Lexes(lx: TokenStream.Lexed) {
    && (lx.bad.None? ==> |lx.toks| >= 1 && lx.toks[|lx.toks| - 1].kind == Eof)
    && (forall i :: 0 <= i < |lx.toks| && lx.toks[i].kind == Kind.Assign ==> lx.toks[i].literal == "=")
  }

  lemma TokenizeLexes(source: string)
    ensures Lexes(TokenStream.Tokenize(source))
  {
  }

  /** Every ASSIGN token the parser can see is spelled `=`: the lexer's are, and the EOF that
      stands in for a panic is not an ASSIGN token. */
  lemma AssignTokensAreEquals(lx: TokenStream.Lexed, t: Token)
    requires Lexes(lx)
    requires t in StreamTokens(lx) && t.kind == Kind.Assign
    ensures t.literal == "="
  {
    var toks := StreamTokens(lx);
    var j :| 0 <= j < |toks| && toks[j] == t;
    if j < |lx.toks| {
      assert toks[j] == lx.toks[j];
    }
  }

  /** Every top-level assignment parsed from what the lexer hands out has the token literal
      `=` and a name whose token literal is the name. */
  lemma AssignmentsReadBackLexed(lx: TokenStream.Lexed)
    requires Lexes(lx)
    ensures var p := ParseLexed(lx).program;
            forall i :: 0 <= i < |p.stmts| && p.stmts[i].Assign? ==>
              StmtTokenLiteral(p.stmts[i]) == Some("=") &&
              NameTokenLiteral(p.stmts[i].name) == p.stmts[i].name.value
  {
    var s := StreamOf(StreamTokens(lx));
    ProgramAssignmentsTokened(s);
    var p := ParseLexed(lx).program;
    assert p == ParseProgram(s).program;
    forall i | 0 <= i < |p.stmts| && p.stmts[i].Assign?
      ensures StmtTokenLiteral(p.stmts[i]) == Some("=")
    {
      assert TokenedAssign(s, p.stmts[i]);
      AssignTokensAreEquals(lx, p.stmts[i].tok);
    }
  }

  /** What the parser tests check of each assignment: the statement's token literal is `=`,
      and its name's token literal is the name itself. Over every source text that parses,
      every top-level assignment does so. */
  lemma ParsedAssignmentsReadBack(source: string)
    ensures Parse(source).Parsed? ==>
            var p := Parse(source).program;
            forall i :: 0 <= i < |p.stmts| && p.stmts[i].Assign? ==>
              StmtTokenLiteral(p.stmts[i]) == Some("=") &&
              NameTokenLiteral(p.stmts[i].name) == p.stmts[i].name.value
  {
    TokenizeLexes(source);
    AssignmentsReadBackLexed(TokenStream.Tokenize(source));
  }

  /** `Program.TokenLiteral` of a parsed stream, by its first token: "" for an empty program,
      the `=` token's literal when it opens with an assignment, possibly a panic (`None`) when
      it opens with a `def` that fails, and the first token's literal otherwise. */
  lemma ProgramLiteralOfStream(s: Stream)
    requires s.Valid()
    ensures var lit := ProgramTokenLiteral(ParseProgram(s).program);
            var st := State(0, 0, []);
            var k := s.toks[0].kind;
            var assign := k == Kind.Name && PeekTok(s, st).kind == Kind.Assign;
            && (k == Eof ==> lit == Some(""))
            && (assign ==> lit == Some(PeekTok(s, st).literal))
            && (k == Def ==> lit.None? || lit == Some(s.toks[0].literal))
            && (k != Eof && k != Def && !assign ==> lit == Some(s.toks[0].literal))
  {
    var st := State(0, 0, []);
    if s.toks[0].kind != Eof {
      var stmt := ParseStatement(s, st);
      assert ProgramLoop(s, st).stmts[0] == stmt.stmt;
    }
  }

  /** `Program.TokenLiteral` as the first tokens of a lexed text decide it: "" for an empty
      program, `=` when it opens with an assignment, possibly a panic (`None`) when it opens
      with a `def` that fails, and the first token's literal otherwise. */
  ghost predicate LiteralByFirstToken(toks: seq<Token>, lit: Option<string>) {
    && |toks| >= 1
    && var assign := toks[0].kind == Kind.Name && |toks| > 1 && toks[1].kind == Kind.Assign;
    && (toks[0].kind == Eof ==> lit == Some(""))
    && (assign ==> lit == Some("="))
    && (toks[0].kind == Def ==> lit.None? || lit == Some(toks[0].literal))
    && (toks[0].kind != Eof && toks[0].kind != Def && !assign ==> lit == Some(toks[0].literal))
  }

  /** The same over what the lexer hands out, where the assignment token is always `=`. */
  lemma ProgramLiteralOfLexed(lx: TokenStream.Lexed)
    requires Lexes(lx)
    ensures LiteralByFirstToken(StreamTokens(lx), ProgramTokenLiteral(ParseLexed(lx).program))
  {
    var s := StreamOf(StreamTokens(lx));
    ProgramLiteralOfStream(s);
    var toks := s.toks;
    if toks[0].kind == Kind.Name && |toks| > 1 && toks[1].kind == Kind.Assign {
      assert PeekTok(s, State(0, 0, [])) == toks[1];
      assert toks[1] in toks;
      AssignTokensAreEquals(lx, toks[1]);
    }
  }

  /** The tokens the parser reads from a source text. */
  ghost function SourceTokens(source: string): seq<Token> {
    StreamTokens(TokenStream.Tokenize(source))
  }

  /** The same over source texts: a program that opens with `name =` reports `=`, one that
      opens with any token but a `def` reports that token's literal, an empty one "". */
  lemma ProgramLiteralOfFirstToken(source: string)
    ensures Parse(source).Parsed? ==>
            LiteralByFirstToken(SourceTokens(source), ProgramTokenLiteral(Parse(source).program))
  {
    TokenizeLexes(source);
    ProgramLiteralOfLexed(TokenStream.Tokenize(source));
  }
}
