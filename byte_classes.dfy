/**
 * The five 256-entry tables of the lexer. Only entries 0 to 127 are
 * initialised in the C source, so every byte from 128 up is outside every
 * class and has no scanner.
 */
module ByteClasses {
  import opened Tokens
  import opened Wrappers

  /** `reference_characters`: a-z, 1-9 and underscore; no upper case, no 0. */
  predicate IsReferenceByte(b: byte)
  {
    ('a' as byte <= b <= 'z' as byte) || ('1' as byte <= b <= '9' as byte) || b == '_' as byte
  }

  /** `type_characters`: A-Z, a-z, 1-9 and underscore; no 0. */
  predicate IsTypeByte(b: byte)
  {
    ('A' as byte <= b <= 'Z' as byte) || IsReferenceByte(b)
  }

  /** `infix_characters`: ! # $ % & * + - . / : ; < = > ? @ \ ^ ` | ~ */
  predicate IsInfixByte(b: byte)
  {
    || b == '!' as byte
    || ('#' as byte <= b <= '&' as byte)
    || b == '*' as byte || b == '+' as byte
    || ('-' as byte <= b <= '/' as byte)
    || (':' as byte <= b <= '@' as byte)
    || b == '\\' as byte || b == '^' as byte || b == '`' as byte
    || b == '|' as byte || b == '~' as byte
  }

  /**
   * `literal_term_characters`: tab, line feed, space and every printable
   * punctuation byte except the double quote. Carriage return, letters and
   * digits are not terminators.
   */
  predicate IsLiteralTerminator(b: byte)
  {
    || b == TAB || b == LF || b == SPACE
    || b == '!' as byte
    || ('#' as byte <= b <= '/' as byte)
    || (':' as byte <= b <= '@' as byte)
    || ('[' as byte <= b <= '`' as byte)
    || ('{' as byte <= b <= '~' as byte)
  }

  /** The bytes `lex_space` skips. */
  predicate IsBlank(b: byte)
  {
    b == SPACE || b == TAB
  }

  /** The bytes `lex_int` and `lex_float` consume. */
  predicate IsDigit(b: byte)
  {
    '0' as byte <= b <= '9' as byte
  }

  predicate IsCarriageReturn(b: byte)
  {
    b == CR
  }

  /** The classes of bytes a sub-scanner consumes a run of. */
  datatype ByteClass = Spaces | Blanks | CarriageReturns | InfixBytes | ReferenceBytes | TypeBytes | Digits

  predicate InClass(c: ByteClass, b: byte)
  {
    match c
    case Spaces => b == SPACE
    case Blanks => IsBlank(b)
    case CarriageReturns => IsCarriageReturn(b)
    case InfixBytes => IsInfixByte(b)
    case ReferenceBytes => IsReferenceByte(b)
    case TypeBytes => IsTypeByte(b)
    case Digits => IsDigit(b)
  }

  /** The sub-scanners the `lexers` table can point to. */
  datatype Scanner =
    | SpaceScanner | EolScanner | InfixScanner | StringScanner
    | SymbolScanner(kind: TokenKind)
    | RightArrowScanner | IntScanner | ColonScanner | TypeScanner | RefScanner
    | AWordScanner | DWordScanner | EWordScanner | FWordScanner | IWordScanner

  /** The `lexers` table: the scanner for a token that starts with `b`, if any. */
  function Dispatch(b: byte): Option<Scanner>
  {
    if b == LF || b == CR then Some(EolScanner)
    else if b == SPACE then Some(SpaceScanner)
    else if b == QUOTE then Some(StringScanner)
    else if b == '(' as byte then Some(SymbolScanner(OpenParen))
    else if b == ')' as byte then Some(SymbolScanner(CloseParen))
    else if b == ',' as byte then Some(SymbolScanner(Comma))
    else if b == '=' as byte then Some(SymbolScanner(Eq))
    else if b == '[' as byte then Some(SymbolScanner(OpenBracket))
    else if b == ']' as byte then Some(SymbolScanner(CloseBracket))
    else if b == '_' as byte then Some(SymbolScanner(Wildcard))
    else if b == '{' as byte then Some(SymbolScanner(OpenBrace))
    else if b == '}' as byte then Some(SymbolScanner(CloseBrace))
    else if b == '-' as byte then Some(RightArrowScanner)
    else if b == ':' as byte then Some(ColonScanner)
    else if IsDigit(b) then Some(IntScanner)
    else if 'A' as byte <= b <= 'Z' as byte then Some(TypeScanner)
    else if b == 'a' as byte then Some(AWordScanner)
    else if b == 'd' as byte then Some(DWordScanner)
    else if b == 'e' as byte then Some(EWordScanner)
    else if b == 'f' as byte then Some(FWordScanner)
    else if b == 'i' as byte then Some(IWordScanner)
    else if ('a' as byte <= b <= 'z' as byte) || b == BAR then Some(RefScanner)
    else if IsInfixByte(b) || b == APOSTROPHE then Some(InfixScanner)
    else None
  }

  /**
   * Only line feed, carriage return and the printable ASCII bytes have a
   * scanner: other control bytes, DEL and every byte from 128 up are
   * "invalid character".
   */
  lemma DispatchDomain(b: byte)
    ensures Dispatch(b).Some? <==> b == LF || b == CR || (SPACE <= b <= '~' as byte)
  {
  }

  /**
   * The two table entries that disagree with the class their scanner
   * consumes: the apostrophe is sent to the infix scanner but is not an infix
   * byte, and the bar is sent to the reference scanner but is not a
   * reference byte. Every other entry agrees with its class.
   */
  lemma DispatchMismatches(b: byte)
    ensures Dispatch(b) == Some(InfixScanner) ==> (IsInfixByte(b) <==> b != APOSTROPHE)
    ensures Dispatch(b) == Some(RefScanner) ==> (IsReferenceByte(b) <==> b != BAR)
    ensures Dispatch(b) == Some(TypeScanner) ==> IsTypeByte(b) && !IsReferenceByte(b)
    ensures Dispatch(b) == Some(IntScanner) ==> IsDigit(b)
    ensures Dispatch(b) == Some(SpaceScanner) ==> IsBlank(b)
    ensures Dispatch(b) == Some(RightArrowScanner) ==> IsInfixByte(b)
    ensures Dispatch(b).Some? && Dispatch(b).value in {AWordScanner, DWordScanner, EWordScanner, FWordScanner, IWordScanner} ==>
      IsReferenceByte(b)
  {
  }
}
