/** Tokens (src/token.h), without line numbers. */
module Tokens {

  datatype TokenKind =
    | TInt | TFloat | TString | TIdent
    | TPlus | TMinus | TStar | TSlash | TPercent
    | TAssign | TEqualEqual | TNotEqual | TLess | TLessEqual | TGreater | TGreaterEqual
    | TAnd | TOr | TNot | TDot | TDotDot | TComma | TColon | TSemicolon | TArrow | TBang
    | TLParen | TRParen | TLBrace | TRBrace | TLBracket | TRBracket
    | TLet | TFn | TReturn | TIf | TElse | TFor | TWhile | TIn | TClass | TSelf
    | TTrue | TFalse | TNil | TPrint | TImport | TServer | TRoute | TRespond | TOn
    | TSecurity | TAsync | TAwait | TBreak | TContinue
    | TError | TEof

  /** `text` is what copy_token_text copies: the token's characters, for a string
      literal those between the quotes. */
  datatype Token = Token(kind: TokenKind, text: string)

  const END: Token := Token(TEof, "")
}
