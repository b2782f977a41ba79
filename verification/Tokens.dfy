/** Tokens and the stream the parser reads them from. */
module Tokens {
  datatype TokenType =
    | Add | AddIncr | AddAssign | Sub | SubDecr | Arrow | SubAssign | Mul | Exp | MulAssign
    | Div | CeilDiv | FloorDiv | DivAssign | Mod | AndLogical | And | OrLogical | Or | Pipe | Xor
    | Less | Shl | LessEqual | Greater | Shr | GreaterEqual | Assign | Equal | FatArrow | Not | NotEqual
    | LeftParen | RightParen | LeftCurly | RightCurly | LeftBracket | RightBracket
    | Comma | SemiColon | Colon | DoubleColon | Tick
    | Ptr | Keyword                // the pointer keyword, and every other reserved word
    | Id | Num | Eof | Invalid

  datatype Token = Token(kind: TokenType, lexeme: string)
}
