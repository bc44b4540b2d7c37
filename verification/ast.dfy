/** The syntax tree of ast/ast.go, with the node kinds parser/parser.go builds. Go's nil
    expression is `Missing`; a `def` whose parse failed is `FailedFuncDef`, standing for the
    nil `*FunctionStatement` the parser returns, which is still a non-nil `Statement`. */
module Ast {
  import opened Tokens
  import opened Wrappers
  import Int64

  datatype Name = Name(tok: Token, value: string)

  datatype Expr =
    | Missing
    | Ident(name: Name)
    | IntLit(tok: Token, n: Int64.Int64)
    | FloatLit(tok: Token)
    | StrLit(tok: Token, text: string)
    | BoolLit(tok: Token, b: bool)
    | Prefix(tok: Token, op: string, right: Expr)
    | Infix(tok: Token, op: string, left: Expr, right: Expr)
    | IfExpr(tok: Token, cond: Expr, cons: Block, alt: Option<Block>)
    | Call(tok: Token, callee: Expr, args: seq<Expr>)
    | Index(tok: Token, target: Expr, index: Expr)
    | ListLit(elems: seq<Expr>)

  datatype Stmt =
    | Assign(tok: Token, name: Name, value: Expr)
    | Return(tok: Token, value: Expr)
    | ExprStmt(tok: Token, expr: Expr)
    | FuncDef(tok: Token, name: Name, params: seq<Name>, body: Block)
    | FailedFuncDef

  datatype Block = Block(tok: Token, stmts: seq<Stmt>)

  datatype Program = Program(stmts: seq<Stmt>)

  /** `Name.TokenLiteral`: the literal of the name's own token. */
  function NameTokenLiteral(n: Name): string {
    n.tok.literal
  }

  /** `TokenLiteral` of a statement: the literal of the statement's own token. For an
      assignment that token is the `=` (ast/ast.go); the other statement kinds follow the same
      pattern. A failed `def` is a nil `*FunctionStatement`, and reading its token dereferences
      nil, a Go panic: `None`. */
  function StmtTokenLiteral(s: Stmt): Option<string> {
    if s.FailedFuncDef? then None else Some(s.tok.literal)
  }

  /** `Program.TokenLiteral`: the first statement's literal, or "" for an empty program. */
  function ProgramTokenLiteral(p: Program): Option<string> {
    if |p.stmts| > 0 then StmtTokenLiteral(p.stmts[0]) else Some("")
  }
}
