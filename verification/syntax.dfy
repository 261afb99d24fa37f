/** Tokens and the abstract syntax tree of the toy language. */
module Syntax {
  import opened CType

  /** The integer codes `gettok` returns for the reserved token kinds; any other
      token is returned as its own (non-negative) character code. */
  const TOK_EOF: int := -1
  const TOK_DEF: int := -2
  const TOK_EXTERN: int := -3
  const TOK_IDENTIFIER: int := -4
  const TOK_NUMBER: int := -5

  /** A token together with the text the lexer leaves beside it: an identifier's
      name (`IdentifierStr`) or a number's literal text (the text `NumVal` is
      converted from). */
  datatype Token =
    | TokEof
    | TokDef
    | TokExtern
    | TokIdentifier(name: string)
    | TokNumber(text: string)
    | TokChar(c: byte)

  /** The integer the lexer returns for a token. */
  function Code(t: Token): (code: int)
    ensures code < 0 <==> !t.TokChar?
    ensures -5 <= code < 256
  {
    match t
    case TokEof => TOK_EOF
    case TokDef => TOK_DEF
    case TokExtern => TOK_EXTERN
    case TokIdentifier(_) => TOK_IDENTIFIER
    case TokNumber(_) => TOK_NUMBER
    case TokChar(c) => c as int
  }

  /** The codes a token can have. */
  predicate IsTokenCode(code: int) {
    -5 <= code < 256
  }

  /** The token that an integer code stands for, given the identifier and
      number text the lexer last stored. */
  function TokenOf(code: int, identifierStr: string, numText: string): (t: Token)
    requires IsTokenCode(code)
    ensures Code(t) == code
    ensures t.TokIdentifier? ==> t.name == identifierStr
    ensures t.TokNumber? ==> t.text == numText
  {
    if code == TOK_EOF then TokEof
    else if code == TOK_DEF then TokDef
    else if code == TOK_EXTERN then TokExtern
    else if code == TOK_IDENTIFIER then TokIdentifier(identifierStr)
    else if code == TOK_NUMBER then TokNumber(numText)
    else TokChar(code as byte)
  }

  /** A character token for an ASCII character. */
  function Punct(c: char): Token
    requires c as int < 256
  {
    TokChar(c as int as byte)
  }

  /** Expression nodes (`NumberExprAST`, `VariableExprAST`, `BinaryExprAST`,
      `CallExprAST`). A number node keeps the literal text it was read from. */
  datatype Expr =
    | NumberExpr(text: string)
    | VariableExpr(name: string)
    | BinaryExpr(op: char, lhs: Expr, rhs: Expr)
    | CallExpr(callee: string, args: seq<Expr>)

  /** `PrototypeAST`: a function's name and its parameter names. */
  datatype Proto = Proto(name: string, params: seq<string>)

  /** `FunctionAST`: a prototype with a body. */
  datatype Function = Function(proto: Proto, body: Expr)

  /** What a parsing routine returns: a node, or the message it logged in
      place of the null pointer the source returns. */
  datatype Result<T> = Ok(value: T) | Err(msg: string)
}
