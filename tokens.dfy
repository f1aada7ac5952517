/**
 * Bytes, token kinds, tokens and lexer errors: the value types shared by the
 * lexer engine and the token queue (token.h, token_type.h, lexer_error.h).
 */
module Tokens {

  /** One byte of the source buffer. The tables are indexed by it, 0 to 255. */
  newtype byte = b: int | 0 <= b < 256

  const TAB: byte := 9
  const LF: byte := 10
  const CR: byte := 13
  const SPACE: byte := 32
  const QUOTE: byte := 34
  const APOSTROPHE: byte := 39
  const DOT: byte := 46
  const BACKSLASH: byte := 92
  const BAR: byte := 124
  const NUL: byte := 0

  /** The lexical categories, in the order of the C enumeration. */
  datatype TokenKind =
    | ReferenceName | TypeName
    | EndOfLine | Indent
    | Colon | Eq | Comma | RightArrow | Wildcard
    | OpenBracket | CloseBracket | OpenBrace | CloseBrace | OpenParen | CloseParen
    | InfixFunctionName
    | As | Data | Def | Elif | Else | Enum | For | If | Import
    | Int | Float | String | Keyword

  /**
   * A token borrows `length` bytes of the caller's buffer starting at `offset`
   * (the C `source` pointer is that buffer). `level` is the indentation level
   * of an Indent token; the C initialiser leaves it zero for every other kind.
   */
  datatype Token = Token(kind: TokenKind, offset: nat, length: nat, line: nat, column: nat, level: nat)

  /** The closed set of diagnostics. */
  datatype Message =
    | InvalidIndentation
    | CarriageReturnWithoutLineFeed
    | InvalidIntTermination
    | InvalidFloatTermination
    | NewLineInString
    | UnterminatedString
    | InvalidStringTermination
    | InvalidCharacter

  /** The exact text the C code reports for each diagnostic. */
  function Text(m: Message): string
  {
    match m
    case InvalidIndentation => "invalid indentation, 4 spaces required"
    case CarriageReturnWithoutLineFeed => "non line feed following a carriage return sequence"
    case InvalidIntTermination => "invalid int termination"
    case InvalidFloatTermination => "invalid float termination"
    case NewLineInString => "new line in string"
    case UnterminatedString => "unterminated string"
    case InvalidStringTermination => "invalid string termination"
    case InvalidCharacter => "invalid character"
  }

  /**
   * Where lexing stopped: the byte at fault, the bounds of its physical line,
   * the 1-based line and the column.
   */
  datatype LexerError = LexerError(offset: nat, lineStart: nat, lineEnd: nat, line: nat, column: nat, message: Message)
}
