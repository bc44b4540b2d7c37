/** Token kinds and tokens. token/token.go declares only some of the kind constants; the
    rest are reconstructed from their use in lexer/lexer.go and parser/parser.go. */
module Tokens {

  datatype Kind =
    | Eof | Newl
    | Name | Int | Float | Str | BoolTrue | BoolFalse
    | Assign | Plus | Minus | Star | Slash | DoubleStar | Bang
    | Eq | NotEq | Lt | Gt | LessEq | GreaterEq
    | PlusAssign | MinusAssign | TimesAssign | DivAssign
    | LPar | RPar | LSqb | RSqb | LBr | RBr | Comma | Colon
    | Def | If | Else | For | Return

  datatype Token = Token(kind: Kind, literal: string)

  /** The keyword table: an identifier spelled like a keyword gets the keyword's kind, every
      other identifier is a NAME (`in`, `print`, `range` included). */
  function LookupKeyword(ident: string): (k: Kind)
    ensures k in {Name, Def, If, Else, For, Return, BoolTrue, BoolFalse}
    ensures k == Name <==> ident !in Keywords
  {
    if ident == "def" then Def
    else if ident == "if" then If
    else if ident == "else" then Else
    else if ident == "for" then For
    else if ident == "return" then Return
    else if ident == "true" then BoolTrue
    else if ident == "false" then BoolFalse
    else Name
  }

  const Keywords: set<string> := {"def", "if", "else", "for", "return", "true", "false"}
}
