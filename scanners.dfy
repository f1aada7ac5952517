/**
 * The indentation scanner and the sub-scanners of lex.c. Each is a
 * side-effect-free function of the buffer `src` (the C `in`), the position `offset`, the
 * bound `end` and the current `column`; the tail recursion of the C code is
 * kept as recursion here.
 */
module Scanners {
  import opened Tokens
  import opened ByteClasses

  /** `SubLexResult`: a token ending at `nextOffset`, no token, or an error. */
  datatype SubLexResult =
    | OkEol(nextOffset: nat, nextColumn: nat)
    | Ok(nextOffset: nat, nextColumn: nat, kind: TokenKind)
    | OkNoToken(nextOffset: nat, nextColumn: nat)
    | Error(offset: nat, column: nat, message: Message)

  /** `LexerIndentResult`. */
  datatype IndentResult =
    | IndentError(nextOffset: nat, nextColumn: nat)
    | IndentFound(nextOffset: nat, nextColumn: nat, level: nat)
    | IndentNotFound(nextOffset: nat, nextColumn: nat)

  // ---------------------------------------------------------------------
  // Specification vocabulary

  /** Every byte of `src[from..to]` is in class `c`. */
  predicate Run(src: seq<byte>, from: nat, to: nat, c: ByteClass)
  {
    from <= to <= |src| && forall i | from <= i < to :: InClass(c, src[i])
  }

  /** `src[from..to]` is the longest run of class `c` that starts at `from` and stays below `end`. */
  predicate MaximalRun(src: seq<byte>, from: nat, to: nat, end: nat, c: ByteClass)
  {
    from <= to <= end <= |src| && Run(src, from, to, c) && (to == end || !InClass(c, src[to]))
  }

  /** A literal may end at `at`: it is the end of the input or a terminator byte. */
  predicate Terminates(src: seq<byte>, at: nat, end: nat)
  {
    at <= end <= |src| && (at == end || IsLiteralTerminator(src[at]))
  }

  /** The column moved by exactly as many bytes as the offset. */
  predicate Tracks(r: SubLexResult, offset: nat, column: nat)
  {
    match r
    case Error(o, c, _) => offset <= o && c == column + (o - offset)
    case _ => offset <= r.nextOffset && r.nextColumn == column + (r.nextOffset - offset)
  }

  /** `src[at]` is below `end` and is the ASCII byte `c`. */
  predicate ByteIs(src: seq<byte>, at: nat, end: nat, c: char)
  {
    at < end <= |src| && src[at] as int == c as int
  }

  /** `src[at..]` spells `w` and the byte after it is a space, all below `end`. */
  predicate FollowedBySpace(src: seq<byte>, at: nat, end: nat, w: string)
    decreases |w|
  {
    if w == [] then ByteIs(src, at, end, ' ')
    else ByteIs(src, at, end, w[0]) && FollowedBySpace(src, at + 1, end, w[1..])
  }

  /**
   * The text between the quotes of a well-formed string literal: a sequence
   * of items, each either a backslash with the byte it escapes, or a byte
   * that is none of backslash, double quote and line feed.
   */
  predicate StringBody(s: seq<byte>)
    decreases |s|
  {
    if s == [] then true
    else if s[0] == BACKSLASH then |s| >= 2 && StringBody(s[2..])
    else s[0] != QUOTE && s[0] != LF && StringBody(s[1..])
  }

  /** A string body followed by a backslash that escapes nothing. */
  predicate DanglingEscape(s: seq<byte>)
  {
    |s| > 0 && s[|s| - 1] == BACKSLASH && StringBody(s[..|s| - 1])
  }

  /** The end of the longest run of class `c` from `from`: a reference definition for the scanners. */
  function RunEnd(src: seq<byte>, from: nat, end: nat, c: ByteClass): (k: nat)
    requires from <= end <= |src|
    ensures MaximalRun(src, from, k, end, c)
    decreases end - from
  {
    if from != end && InClass(c, src[from]) then RunEnd(src, from + 1, end, c) else from
  }

  // ---------------------------------------------------------------------
  // Indentation

  /**
   * `lex_indents`: consume complete groups of four spaces. `level` counts the
   * groups already consumed; the column moves with the offset through
   * complete groups only, so an error reports the column where the partial
   * group began and the offset of the first byte after it.
   */
  function LexIndents(src: seq<byte>, offset: nat, end: nat, column: nat, level: nat): (r: IndentResult)
    requires offset <= end <= |src|
    ensures r.IndentFound? ==>
      && r.level >= 1 && r.level >= level
      && r.nextOffset == offset + 4 * (r.level - level)
      && r.nextColumn == column + 4 * (r.level - level)
      && MaximalRun(src, offset, r.nextOffset, end, Spaces)
    ensures r.IndentNotFound? ==>
      && level == 0 && r.nextOffset == offset && r.nextColumn == column
      && (offset == end || src[offset] != SPACE)
    ensures r.IndentError? ==>
      && column <= r.nextColumn && (r.nextColumn - column) % 4 == 0
      && offset + (r.nextColumn - column) < r.nextOffset <= offset + (r.nextColumn - column) + 3
      && MaximalRun(src, offset, r.nextOffset, end, Spaces)
    decreases end - offset
  {
    if offset != end && src[offset] == SPACE then
      if && offset + 1 != end && src[offset + 1] == SPACE
         && offset + 2 != end && src[offset + 2] == SPACE
         && offset + 3 != end && src[offset + 3] == SPACE
      then
        LexIndents(src, offset + 4, end, column + 4, level + 1)
      else
        var stop :=
          if offset + 1 == end || src[offset + 1] != SPACE then offset + 1
          else if offset + 2 == end || src[offset + 2] != SPACE then offset + 2
          else offset + 3;
        IndentError(stop, column)
    else if level != 0 then
      IndentFound(offset, column, level)
    else
      IndentNotFound(offset, column)
  }

  // ---------------------------------------------------------------------
  // Whitespace, end of line, infix runs, symbols

  /** `lex_space`: skip the run of spaces and tabs; no token. */
  function LexSpace(src: seq<byte>, offset: nat, end: nat, column: nat): (r: SubLexResult)
    requires offset <= end <= |src|
    ensures r.OkNoToken? && Tracks(r, offset, column)
    ensures MaximalRun(src, offset, r.nextOffset, end, Blanks)
    decreases end - offset
  {
    if offset != end && IsBlank(src[offset]) then LexSpace(src, offset + 1, end, column + 1)
    else OkNoToken(offset, column)
  }

  /**
   * `lex_eol`: a run of carriage returns must be followed by a line feed;
   * the token covers the run and the line feed.
   */
  function LexEol(src: seq<byte>, offset: nat, end: nat, column: nat): (r: SubLexResult)
    requires offset <= end <= |src|
    ensures Tracks(r, offset, column)
    ensures r.OkEol? || (r.Error? && r.message == CarriageReturnWithoutLineFeed)
    ensures r.OkEol? ==>
      offset < r.nextOffset <= end && Run(src, offset, r.nextOffset - 1, CarriageReturns) && src[r.nextOffset - 1] == LF
    ensures r.Error? ==>
      MaximalRun(src, offset, r.offset, end, CarriageReturns) && (r.offset == end || src[r.offset] != LF)
    decreases end - offset
  {
    if offset != end && src[offset] == CR then LexEol(src, offset + 1, end, column + 1)
    else if offset != end && src[offset] == LF then OkEol(offset + 1, column + 1)
    else Error(offset, column, CarriageReturnWithoutLineFeed)
  }

  /** `lex_infix`: one InfixFunctionName token over the longest run of infix bytes (possibly empty). */
  function LexInfix(src: seq<byte>, offset: nat, end: nat, column: nat): (r: SubLexResult)
    requires offset <= end <= |src|
    ensures r.Ok? && r.kind == InfixFunctionName && Tracks(r, offset, column)
    ensures MaximalRun(src, offset, r.nextOffset, end, InfixBytes)
    decreases end - offset
  {
    if offset != end && IsInfixByte(src[offset]) then LexInfix(src, offset + 1, end, column + 1)
    else Ok(offset, column, InfixFunctionName)
  }

  /**
   * `lex_single_symbol`: the one-byte token `kind`, unless an infix byte
   * follows, in which case one InfixFunctionName covers the symbol and the
   * longest infix run after it.
   */
  function LexSingleSymbol(kind: TokenKind, src: seq<byte>, offset: nat, end: nat, column: nat): (r: SubLexResult)
    requires offset < end <= |src|
    ensures r.Ok? && Tracks(r, offset, column)
    ensures offset + 1 == end || !IsInfixByte(src[offset + 1]) ==> r.kind == kind && r.nextOffset == offset + 1
    ensures offset + 1 < end && IsInfixByte(src[offset + 1]) ==>
      && r.kind == InfixFunctionName && offset + 2 <= r.nextOffset
      && MaximalRun(src, offset + 1, r.nextOffset, end, InfixBytes)
  {
    if offset + 1 == end || !IsInfixByte(src[offset + 1]) then Ok(offset + 1, column + 1, kind)
    else LexInfix(src, offset + 1, end, column + 1)
  }

  /** `lex_keyword`: the reference run after a colon; the token is a Keyword literal. */
  function LexKeyword(src: seq<byte>, offset: nat, end: nat, column: nat): (r: SubLexResult)
    requires offset <= end <= |src|
    ensures r.Ok? && r.kind == Keyword && Tracks(r, offset, column)
    ensures MaximalRun(src, offset, r.nextOffset, end, ReferenceBytes)
    decreases end - offset
  {
    if offset != end && IsReferenceByte(src[offset]) then LexKeyword(src, offset + 1, end, column + 1)
    else Ok(offset, column, Keyword)
  }

  /**
   * `lex_colon`: a colon followed by a reference byte starts a Keyword
   * literal; otherwise the colon is a single symbol.
   */
  function LexColon(src: seq<byte>, offset: nat, end: nat, column: nat): (r: SubLexResult)
    requires offset < end <= |src|
    ensures r.Ok? && Tracks(r, offset, column)
    ensures r.kind == Keyword <==> offset + 1 < end && IsReferenceByte(src[offset + 1])
    ensures r.kind == Keyword ==> offset + 2 <= r.nextOffset && MaximalRun(src, offset + 1, r.nextOffset, end, ReferenceBytes)
    ensures r.kind == InfixFunctionName <==> offset + 1 < end && IsInfixByte(src[offset + 1])
    ensures r.kind == InfixFunctionName ==> MaximalRun(src, offset + 1, r.nextOffset, end, InfixBytes)
    ensures r.kind != Keyword && r.kind != InfixFunctionName ==> r.kind == Colon && r.nextOffset == offset + 1
  {
    if offset + 1 != end && IsReferenceByte(src[offset + 1]) then LexKeyword(src, offset + 1, end, column + 1)
    else LexSingleSymbol(Colon, src, offset, end, column)
  }

  /**
   * `lex_right_arrow`: `->` immediately followed by a space is RightArrow
   * (the token excludes the space); anything else is an infix run from the
   * hyphen.
   */
  function LexRightArrow(src: seq<byte>, offset: nat, end: nat, column: nat): (r: SubLexResult)
    requires offset < end <= |src|
    ensures r.Ok? && Tracks(r, offset, column)
    ensures r.kind == RightArrow <==> FollowedBySpace(src, offset + 1, end, ">")
    ensures r.kind == RightArrow ==> r.nextOffset == offset + 2
    ensures r.kind != RightArrow ==> r.kind == InfixFunctionName && MaximalRun(src, offset, r.nextOffset, end, InfixBytes)
  {
    if offset + 1 != end && src[offset + 1] == '>' as byte && offset + 2 != end && src[offset + 2] == SPACE then
      Ok(offset + 2, column + 2, RightArrow)
    else
      LexInfix(src, offset, end, column)
  }

  // ---------------------------------------------------------------------
  // Names and reserved words

  /** `lex_type`: a TypeName over the longest run of type bytes. */
  function LexType(src: seq<byte>, offset: nat, end: nat, column: nat): (r: SubLexResult)
    requires offset <= end <= |src|
    ensures r.Ok? && r.kind == TypeName && Tracks(r, offset, column)
    ensures MaximalRun(src, offset, r.nextOffset, end, TypeBytes)
    decreases end - offset
  {
    if offset != end && IsTypeByte(src[offset]) then LexType(src, offset + 1, end, column + 1)
    else Ok(offset, column, TypeName)
  }

  /** `lex_ref`: a ReferenceName over the longest run of reference bytes. */
  function LexRef(src: seq<byte>, offset: nat, end: nat, column: nat): (r: SubLexResult)
    requires offset <= end <= |src|
    ensures r.Ok? && r.kind == ReferenceName && Tracks(r, offset, column)
    ensures MaximalRun(src, offset, r.nextOffset, end, ReferenceBytes)
    decreases end - offset
  {
    if offset != end && IsReferenceByte(src[offset]) then LexRef(src, offset + 1, end, column + 1)
    else Ok(offset, column, ReferenceName)
  }

  /** `lex_a_lang`: `as` followed by a space, else a reference name from the first byte. */
  function LexAWord(src: seq<byte>, offset: nat, end: nat, column: nat): (r: SubLexResult)
    requires offset < end <= |src|
    ensures r.Ok? && Tracks(r, offset, column)
    ensures r.kind == As <==> FollowedBySpace(src, offset + 1, end, "s")
    ensures r.kind == As ==> r.nextOffset == offset + 2
    ensures r.kind != As ==> r.kind == ReferenceName && MaximalRun(src, offset, r.nextOffset, end, ReferenceBytes)
  {
    if ByteIs(src, offset + 1, end, 's') && ByteIs(src, offset + 2, end, ' ') then
      Ok(offset + 2, column + 2, As)
    else
      LexRef(src, offset, end, column)
  }

  /** `lex_d_lang`: `data` or `def` followed by a space, else a reference name. */
  function LexDWord(src: seq<byte>, offset: nat, end: nat, column: nat): (r: SubLexResult)
    requires offset < end <= |src|
    ensures r.Ok? && Tracks(r, offset, column)
    ensures r.kind == Data <==> FollowedBySpace(src, offset + 1, end, "ata")
    ensures r.kind == Def <==> FollowedBySpace(src, offset + 1, end, "ef")
    ensures r.kind == Data ==> r.nextOffset == offset + 4
    ensures r.kind == Def ==> r.nextOffset == offset + 3
    ensures r.kind != Data && r.kind != Def ==>
      r.kind == ReferenceName && MaximalRun(src, offset, r.nextOffset, end, ReferenceBytes)
  {
    if ByteIs(src, offset + 1, end, 'a') then
      if ByteIs(src, offset + 2, end, 't') && ByteIs(src, offset + 3, end, 'a') && ByteIs(src, offset + 4, end, ' ') then
        Ok(offset + 4, column + 4, Data)
      else
        LexRef(src, offset, end, column)
    else if ByteIs(src, offset + 1, end, 'e') then
      if ByteIs(src, offset + 2, end, 'f') && ByteIs(src, offset + 3, end, ' ') then
        Ok(offset + 3, column + 3, Def)
      else
        LexRef(src, offset, end, column)
    else
      LexRef(src, offset, end, column)
  }

  /** `lex_e_lang`: `elif`, `else` or `enum` followed by a space, else a reference name. */
  function LexEWord(src: seq<byte>, offset: nat, end: nat, column: nat): (r: SubLexResult)
    requires offset < end <= |src|
    ensures r.Ok? && Tracks(r, offset, column)
    ensures r.kind == Elif <==> FollowedBySpace(src, offset + 1, end, "lif")
    ensures r.kind == Else <==> FollowedBySpace(src, offset + 1, end, "lse")
    ensures r.kind == Enum <==> FollowedBySpace(src, offset + 1, end, "num")
    ensures r.kind in {Elif, Else, Enum} ==> r.nextOffset == offset + 4
    ensures r.kind !in {Elif, Else, Enum} ==>
      r.kind == ReferenceName && MaximalRun(src, offset, r.nextOffset, end, ReferenceBytes)
  {
    if ByteIs(src, offset + 1, end, 'l') then
      if ByteIs(src, offset + 2, end, 'i') then
        if ByteIs(src, offset + 3, end, 'f') && ByteIs(src, offset + 4, end, ' ') then
          Ok(offset + 4, column + 4, Elif)
        else
          LexRef(src, offset, end, column)
      else if ByteIs(src, offset + 2, end, 's') then
        if ByteIs(src, offset + 3, end, 'e') && ByteIs(src, offset + 4, end, ' ') then
          Ok(offset + 4, column + 4, Else)
        else
          LexRef(src, offset, end, column)
      else
        LexRef(src, offset, end, column)
    else if ByteIs(src, offset + 1, end, 'n') then
      if ByteIs(src, offset + 2, end, 'u') && ByteIs(src, offset + 3, end, 'm') && ByteIs(src, offset + 4, end, ' ') then
        Ok(offset + 4, column + 4, Enum)
      else
        LexRef(src, offset, end, column)
    else
      LexRef(src, offset, end, column)
  }

  /** `lex_f_lang`: `for` followed by a space, else a reference name. */
  function LexFWord(src: seq<byte>, offset: nat, end: nat, column: nat): (r: SubLexResult)
    requires offset < end <= |src|
    ensures r.Ok? && Tracks(r, offset, column)
    ensures r.kind == For <==> FollowedBySpace(src, offset + 1, end, "or")
    ensures r.kind == For ==> r.nextOffset == offset + 3
    ensures r.kind != For ==> r.kind == ReferenceName && MaximalRun(src, offset, r.nextOffset, end, ReferenceBytes)
  {
    if ByteIs(src, offset + 1, end, 'o') && ByteIs(src, offset + 2, end, 'r') && ByteIs(src, offset + 3, end, ' ') then
      Ok(offset + 3, column + 3, For)
    else
      LexRef(src, offset, end, column)
  }

  /** `lex_i_lang`: `if` or `import` followed by a space, else a reference name. */
  function LexIWord(src: seq<byte>, offset: nat, end: nat, column: nat): (r: SubLexResult)
    requires offset < end <= |src|
    ensures r.Ok? && Tracks(r, offset, column)
    ensures r.kind == If <==> FollowedBySpace(src, offset + 1, end, "f")
    ensures r.kind == Import <==> FollowedBySpace(src, offset + 1, end, "mport")
    ensures r.kind == If ==> r.nextOffset == offset + 2
    ensures r.kind == Import ==> r.nextOffset == offset + 6
    ensures r.kind != If && r.kind != Import ==>
      r.kind == ReferenceName && MaximalRun(src, offset, r.nextOffset, end, ReferenceBytes)
  {
    if ByteIs(src, offset + 1, end, 'f') then
      if ByteIs(src, offset + 2, end, ' ') then
        Ok(offset + 2, column + 2, If)
      else
        LexRef(src, offset, end, column)
    else if ByteIs(src, offset + 1, end, 'm') then
      if && ByteIs(src, offset + 2, end, 'p') && ByteIs(src, offset + 3, end, 'o') && ByteIs(src, offset + 4, end, 'r')
         && ByteIs(src, offset + 5, end, 't') && ByteIs(src, offset + 6, end, ' ')
      then
        Ok(offset + 6, column + 6, Import)
      else
        LexRef(src, offset, end, column)
    else
      LexRef(src, offset, end, column)
  }

  // ---------------------------------------------------------------------
  // Numbers

  /**
   * `lex_float`: the digits after the point; the literal must then end at
   * the end of the input or at a terminator byte.
   */
  function LexFloat(src: seq<byte>, offset: nat, end: nat, column: nat): (r: SubLexResult)
    requires offset <= end <= |src|
    ensures Tracks(r, offset, column)
    ensures r.Ok? || (r.Error? && r.message == InvalidFloatTermination)
    ensures r.Ok? ==>
      r.kind == Float && MaximalRun(src, offset, r.nextOffset, end, Digits) && Terminates(src, r.nextOffset, end)
    ensures r.Error? ==>
      MaximalRun(src, offset, r.offset, end, Digits) && !Terminates(src, r.offset, end)
    decreases end - offset
  {
    if offset != end && IsDigit(src[offset]) then LexFloat(src, offset + 1, end, column + 1)
    else if offset != end && !IsLiteralTerminator(src[offset]) then Error(offset, column, InvalidFloatTermination)
    else Ok(offset, column, Float)
  }

  /**
   * `lex_int`: a digit run is an Int; a point right after the run switches
   * to `lex_float`. Either literal must end at the end of the input or at a
   * terminator byte, else the error names the offending byte.
   */
  function LexInt(src: seq<byte>, offset: nat, end: nat, column: nat): (r: SubLexResult)
    requires offset <= end <= |src|
    ensures Tracks(r, offset, column)
    ensures r.Ok? || r.Error?
    ensures var d := RunEnd(src, offset, end, Digits);
      if d < end && src[d] == DOT then
        && (r.Ok? ==> r.kind == Float && MaximalRun(src, d + 1, r.nextOffset, end, Digits) && Terminates(src, r.nextOffset, end))
        && (r.Error? ==> r.message == InvalidFloatTermination && MaximalRun(src, d + 1, r.offset, end, Digits) && !Terminates(src, r.offset, end))
      else if Terminates(src, d, end) then
        r == Ok(d, column + (d - offset), Int)
      else
        r == Error(d, column + (d - offset), InvalidIntTermination)
    decreases end - offset
  {
    if offset != end && IsDigit(src[offset]) then LexInt(src, offset + 1, end, column + 1)
    else if offset != end && src[offset] == DOT then LexFloat(src, offset + 1, end, column + 1)
    else if offset != end && !IsLiteralTerminator(src[offset]) then Error(offset, column, InvalidIntTermination)
    else Ok(offset, column, Int)
  }

  // ---------------------------------------------------------------------
  // Strings

  /** The text `s` scanned so far, after a pending backslash if `escaped`. */
  function Pending(escaped: bool, s: seq<byte>): (t: seq<byte>)
    ensures |t| == |s| + (if escaped then 1 else 0)
  {
    if escaped then [BACKSLASH] + s else s
  }

  /**
   * The outcome `r` of scanning string text from `offset`, where `escaped`
   * says a backslash was consumed just before it and is not yet matched.
   * Exactly one of: the closing quote at `r.nextOffset - 1` followed by a
   * terminator; a closing quote followed by a non-terminator; an unescaped
   * line feed; the end of the input, possibly right after a backslash. In
   * every case the text before the stopping point is a string body.
   */
  predicate StringScanned(escaped: bool, src: seq<byte>, offset: nat, end: nat, column: nat, r: SubLexResult)
  {
    && offset <= end <= |src|
    && Tracks(r, offset, column)
    && (r.Ok? || r.Error?)
    && (r.Ok? ==>
          && r.kind == String && offset < r.nextOffset <= end && src[r.nextOffset - 1] == QUOTE
          && StringBody(Pending(escaped, src[offset..r.nextOffset - 1])) && Terminates(src, r.nextOffset, end))
    && (r.Error? ==> r.message in {InvalidStringTermination, NewLineInString, UnterminatedString})
    && (r.Error? && r.message == InvalidStringTermination ==>
          && r.offset < end && src[r.offset] == QUOTE
          && StringBody(Pending(escaped, src[offset..r.offset])) && !Terminates(src, r.offset + 1, end))
    && (r.Error? && r.message == NewLineInString ==>
          r.offset < end && src[r.offset] == LF && StringBody(Pending(escaped, src[offset..r.offset])))
    && (r.Error? && r.message == UnterminatedString ==>
          && r.offset == end
          && (StringBody(Pending(escaped, src[offset..end])) || DanglingEscape(Pending(escaped, src[offset..end]))))
  }

  /** Prepending one byte `b` to `s` keeps a body a body, and a dangling escape dangling. */
  lemma BodyCons(b: byte, s: seq<byte>)
    requires b != BACKSLASH && b != QUOTE && b != LF
    ensures StringBody(s) ==> StringBody([b] + s)
    ensures DanglingEscape(s) ==> DanglingEscape([b] + s)
  {
    assert ([b] + s)[1..] == s;
    if |s| > 0 {
      assert ([b] + s)[..|s|] == [b] + s[..|s| - 1];
      assert ([b] + s[..|s| - 1])[1..] == s[..|s| - 1];
    }
  }

  /** Prepending an escape pair to `s` keeps a body a body, and a dangling escape dangling. */
  lemma BodyEscape(e: byte, s: seq<byte>)
    ensures StringBody(s) ==> StringBody([BACKSLASH, e] + s)
    ensures DanglingEscape(s) ==> DanglingEscape([BACKSLASH, e] + s)
  {
    assert ([BACKSLASH, e] + s)[2..] == s;
    if |s| > 0 {
      assert ([BACKSLASH, e] + s)[..|s| + 1] == [BACKSLASH, e] + s[..|s| - 1];
      assert ([BACKSLASH, e] + s[..|s| - 1])[2..] == s[..|s| - 1];
    }
  }

  /** The byte after a pending backslash is taken whatever it is. */
  lemma EscapedStep(src: seq<byte>, offset: nat, end: nat, column: nat, r: SubLexResult)
    requires offset < end <= |src|
    requires StringScanned(false, src, offset + 1, end, column + 1, r)
    ensures StringScanned(true, src, offset, end, column, r)
  {
    var x := if r.Ok? then r.nextOffset - 1 else r.offset;
    assert Pending(true, src[offset..x]) == [BACKSLASH, src[offset]] + src[offset + 1..x];
    BodyEscape(src[offset], src[offset + 1..x]);
  }

  /** An unescaped backslash becomes the pending backslash. */
  lemma BackslashStep(src: seq<byte>, offset: nat, end: nat, column: nat, r: SubLexResult)
    requires offset < end <= |src| && src[offset] == BACKSLASH
    requires StringScanned(true, src, offset + 1, end, column + 1, r)
    ensures StringScanned(false, src, offset, end, column, r)
  {
    var x := if r.Ok? then r.nextOffset - 1 else r.offset;
    assert src[offset..x] == Pending(true, src[offset + 1..x]);
  }

  /** A byte that is none of backslash, quote and line feed is one item of the body. */
  lemma PlainStep(src: seq<byte>, offset: nat, end: nat, column: nat, r: SubLexResult)
    requires offset < end <= |src| && src[offset] != BACKSLASH && src[offset] != QUOTE && src[offset] != LF
    requires StringScanned(false, src, offset + 1, end, column + 1, r)
    ensures StringScanned(false, src, offset, end, column, r)
  {
    var x := if r.Ok? then r.nextOffset - 1 else r.offset;
    assert src[offset..x] == [src[offset]] + src[offset + 1..x];
    BodyCons(src[offset], src[offset + 1..x]);
  }

  /**
   * `lex_inner_string`: scan the text after the opening quote. `escaped`
   * says a backslash was just consumed; the byte after a backslash is taken
   * whatever it is, a line feed included.
   */
  function LexInnerString(escaped: bool, src: seq<byte>, offset: nat, end: nat, column: nat): (r: SubLexResult)
    requires offset <= end <= |src|
    ensures StringScanned(escaped, src, offset, end, column, r)
    decreases end - offset
  {
    if offset == end then
      var r := Error(offset, column, UnterminatedString);
      assert Pending(escaped, src[offset..end]) == if escaped then [BACKSLASH] else [];
      r
    else if escaped then
      var r := LexInnerString(false, src, offset + 1, end, column + 1);
      EscapedStep(src, offset, end, column, r);
      r
    else if src[offset] == BACKSLASH then
      var r := LexInnerString(true, src, offset + 1, end, column + 1);
      BackslashStep(src, offset, end, column, r);
      r
    else if src[offset] == QUOTE then
      if offset + 1 != end && !IsLiteralTerminator(src[offset + 1]) then Error(offset, column, InvalidStringTermination)
      else Ok(offset + 1, column + 1, String)
    else if src[offset] == LF then
      Error(offset, column, NewLineInString)
    else
      var r := LexInnerString(false, src, offset + 1, end, column + 1);
      PlainStep(src, offset, end, column, r);
      r
  }

  /**
   * `lex_string`: a String token spans both quotes; the text between them
   * is a string body.
   */
  function LexString(src: seq<byte>, offset: nat, end: nat, column: nat): (r: SubLexResult)
    requires offset < end <= |src|
    ensures Tracks(r, offset, column)
    ensures r.Ok? || r.Error?
    ensures r.Ok? ==>
      && r.kind == String && offset + 2 <= r.nextOffset <= end && src[r.nextOffset - 1] == QUOTE
      && StringBody(src[offset + 1..r.nextOffset - 1]) && Terminates(src, r.nextOffset, end)
    ensures r.Error? ==> r.message in {InvalidStringTermination, NewLineInString, UnterminatedString}
    ensures r.Error? && r.message == InvalidStringTermination ==>
      && offset < r.offset < end && src[r.offset] == QUOTE
      && StringBody(src[offset + 1..r.offset]) && !Terminates(src, r.offset + 1, end)
    ensures r.Error? && r.message == NewLineInString ==>
      offset < r.offset < end && src[r.offset] == LF && StringBody(src[offset + 1..r.offset])
    ensures r.Error? && r.message == UnterminatedString ==>
      r.offset == end && (StringBody(src[offset + 1..end]) || DanglingEscape(src[offset + 1..end]))
  {
    LexInnerString(false, src, offset + 1, end, column + 1)
  }

  // ---------------------------------------------------------------------
  // Dispatch

  /** Call the sub-scanner a `lexers` entry points to. */
  function Scan(scanner: Scanner, src: seq<byte>, offset: nat, end: nat, column: nat): (r: SubLexResult)
    requires offset < end <= |src|
    ensures Tracks(r, offset, column)
    ensures !r.Error? ==> r.nextOffset <= end
    ensures r.Error? ==> r.offset <= end && r.message != InvalidIndentation && r.message != InvalidCharacter
  {
    match scanner
    case SpaceScanner => LexSpace(src, offset, end, column)
    case EolScanner => LexEol(src, offset, end, column)
    case InfixScanner => LexInfix(src, offset, end, column)
    case StringScanner => LexString(src, offset, end, column)
    case SymbolScanner(kind) => LexSingleSymbol(kind, src, offset, end, column)
    case RightArrowScanner => LexRightArrow(src, offset, end, column)
    case IntScanner => LexInt(src, offset, end, column)
    case ColonScanner => LexColon(src, offset, end, column)
    case TypeScanner => LexType(src, offset, end, column)
    case RefScanner => LexRef(src, offset, end, column)
    case AWordScanner => LexAWord(src, offset, end, column)
    case DWordScanner => LexDWord(src, offset, end, column)
    case EWordScanner => LexEWord(src, offset, end, column)
    case FWordScanner => LexFWord(src, offset, end, column)
    case IWordScanner => LexIWord(src, offset, end, column)
  }

  /** The scanner the table picks for the byte at `offset`, applied there. */
  function ScanAt(src: seq<byte>, offset: nat, end: nat, column: nat): SubLexResult
    requires offset < end <= |src| && Dispatch(src[offset]).Some?
  {
    Scan(Dispatch(src[offset]).value, src, offset, end, column)
  }

  /**
   * Progress: every dispatched scanner that does not fail consumes at least
   * one byte, except at an apostrophe or a bar, where it yields a
   * zero-length token and leaves the offset where it was.
   */
  lemma ScanProgress(src: seq<byte>, offset: nat, end: nat, column: nat)
    requires offset < end <= |src| && Dispatch(src[offset]).Some?
    ensures var r := ScanAt(src, offset, end, column);
      && (src[offset] == APOSTROPHE ==> r == Ok(offset, column, InfixFunctionName))
      && (src[offset] == BAR ==> r == Ok(offset, column, ReferenceName))
      && (src[offset] != APOSTROPHE && src[offset] != BAR && !r.Error? ==> r.nextOffset > offset)
  {
    var b := src[offset];
    var r := ScanAt(src, offset, end, column);
    match Dispatch(b).value
    case InfixScanner =>
      assert IsInfixByte(b) <==> b != APOSTROPHE;
    case RefScanner =>
      assert IsReferenceByte(b) <==> b != BAR;
    case TypeScanner =>
      assert IsTypeByte(b);
    case IntScanner =>
      assert IsDigit(b);
    case SpaceScanner =>
      assert IsBlank(b);
    case RightArrowScanner =>
      assert IsInfixByte(b);
    case AWordScanner =>
      assert IsReferenceByte(b);
    case DWordScanner =>
      assert IsReferenceByte(b);
    case EWordScanner =>
      assert IsReferenceByte(b);
    case FWordScanner =>
      assert IsReferenceByte(b);
    case IWordScanner =>
      assert IsReferenceByte(b);
    case _ =>
  }

  /** The token kinds each sub-scanner can produce. */
  function KindsOf(scanner: Scanner): set<TokenKind>
  {
    match scanner
    case SpaceScanner => {}
    case EolScanner => {}
    case InfixScanner => {InfixFunctionName}
    case StringScanner => {String}
    case SymbolScanner(kind) => {kind, InfixFunctionName}
    case RightArrowScanner => {RightArrow, InfixFunctionName}
    case IntScanner => {Int, Float}
    case ColonScanner => {Keyword, Colon, InfixFunctionName}
    case TypeScanner => {TypeName}
    case RefScanner => {ReferenceName}
    case AWordScanner => {As, ReferenceName}
    case DWordScanner => {Data, Def, ReferenceName}
    case EWordScanner => {Elif, Else, Enum, ReferenceName}
    case FWordScanner => {For, ReferenceName}
    case IWordScanner => {If, Import, ReferenceName}
  }

  /** A scanner's token is always of one of its own kinds; only the line-end scanner reports an end of line. */
  lemma ScanKinds(scanner: Scanner, src: seq<byte>, offset: nat, end: nat, column: nat)
    requires offset < end <= |src|
    ensures var r := Scan(scanner, src, offset, end, column);
      && (r.Ok? ==> r.kind in KindsOf(scanner))
      && (r.OkEol? ==> scanner == EolScanner)
      && (r.OkNoToken? ==> scanner == SpaceScanner)
  {
  }

  /** Dispatching yields the arrow `->` exactly when it is followed by a space; nothing else does. */
  lemma RightArrowWord(src: seq<byte>, offset: nat, end: nat, column: nat)
    requires offset < end <= |src| && Dispatch(src[offset]).Some?
    ensures var r := ScanAt(src, offset, end, column);
      (r.Ok? && r.kind == RightArrow <==> FollowedBySpace(src, offset, end, "->"))
  {
    var scanner := Dispatch(src[offset]).value;
    ScanKinds(scanner, src, offset, end, column);
    if src[offset] == '-' as byte {
      assert scanner == RightArrowScanner;
      assert ScanAt(src, offset, end, column) == LexRightArrow(src, offset, end, column);
      assert "->"[1..] == ">";
    } else {
      assert RightArrow !in KindsOf(scanner);
    }
  }

  /** Dispatching yields the word `as` exactly when it is followed by a space; nothing else does. */
  lemma AsWord(src: seq<byte>, offset: nat, end: nat, column: nat)
    requires offset < end <= |src| && Dispatch(src[offset]).Some?
    ensures var r := ScanAt(src, offset, end, column);
      (r.Ok? && r.kind == As <==> FollowedBySpace(src, offset, end, "as"))
  {
    var scanner := Dispatch(src[offset]).value;
    ScanKinds(scanner, src, offset, end, column);
    if src[offset] == 'a' as byte {
      assert scanner == AWordScanner;
      assert ScanAt(src, offset, end, column) == LexAWord(src, offset, end, column);
      assert "as"[1..] == "s";
    } else {
      assert As !in KindsOf(scanner);
    }
  }

  /** Dispatching yields the word `data` exactly when it is followed by a space; nothing else does. */
  lemma DataWord(src: seq<byte>, offset: nat, end: nat, column: nat)
    requires offset < end <= |src| && Dispatch(src[offset]).Some?
    ensures var r := ScanAt(src, offset, end, column);
      (r.Ok? && r.kind == Data <==> FollowedBySpace(src, offset, end, "data"))
  {
    var scanner := Dispatch(src[offset]).value;
    ScanKinds(scanner, src, offset, end, column);
    if src[offset] == 'd' as byte {
      assert scanner == DWordScanner;
      assert ScanAt(src, offset, end, column) == LexDWord(src, offset, end, column);
      assert "data"[1..] == "ata";
    } else {
      assert Data !in KindsOf(scanner);
    }
  }

  /** Dispatching yields the word `def` exactly when it is followed by a space; nothing else does. */
  lemma DefWord(src: seq<byte>, offset: nat, end: nat, column: nat)
    requires offset < end <= |src| && Dispatch(src[offset]).Some?
    ensures var r := ScanAt(src, offset, end, column);
      (r.Ok? && r.kind == Def <==> FollowedBySpace(src, offset, end, "def"))
  {
    var scanner := Dispatch(src[offset]).value;
    ScanKinds(scanner, src, offset, end, column);
    if src[offset] == 'd' as byte {
      assert scanner == DWordScanner;
      assert ScanAt(src, offset, end, column) == LexDWord(src, offset, end, column);
      assert "def"[1..] == "ef";
    } else {
      assert Def !in KindsOf(scanner);
    }
  }

  /** Dispatching yields the word `elif` exactly when it is followed by a space; nothing else does. */
  lemma ElifWord(src: seq<byte>, offset: nat, end: nat, column: nat)
    requires offset < end <= |src| && Dispatch(src[offset]).Some?
    ensures var r := ScanAt(src, offset, end, column);
      (r.Ok? && r.kind == Elif <==> FollowedBySpace(src, offset, end, "elif"))
  {
    var scanner := Dispatch(src[offset]).value;
    ScanKinds(scanner, src, offset, end, column);
    if src[offset] == 'e' as byte {
      assert scanner == EWordScanner;
      assert ScanAt(src, offset, end, column) == LexEWord(src, offset, end, column);
      assert "elif"[1..] == "lif";
    } else {
      assert Elif !in KindsOf(scanner);
    }
  }

  /** Dispatching yields the word `else` exactly when it is followed by a space; nothing else does. */
  lemma ElseWord(src: seq<byte>, offset: nat, end: nat, column: nat)
    requires offset < end <= |src| && Dispatch(src[offset]).Some?
    ensures var r := ScanAt(src, offset, end, column);
      (r.Ok? && r.kind == Else <==> FollowedBySpace(src, offset, end, "else"))
  {
    var scanner := Dispatch(src[offset]).value;
    ScanKinds(scanner, src, offset, end, column);
    if src[offset] == 'e' as byte {
      assert scanner == EWordScanner;
      assert ScanAt(src, offset, end, column) == LexEWord(src, offset, end, column);
      assert "else"[1..] == "lse";
    } else {
      assert Else !in KindsOf(scanner);
    }
  }

  /** Dispatching yields the word `enum` exactly when it is followed by a space; nothing else does. */
  lemma EnumWord(src: seq<byte>, offset: nat, end: nat, column: nat)
    requires offset < end <= |src| && Dispatch(src[offset]).Some?
    ensures var r := ScanAt(src, offset, end, column);
      (r.Ok? && r.kind == Enum <==> FollowedBySpace(src, offset, end, "enum"))
  {
    var scanner := Dispatch(src[offset]).value;
    ScanKinds(scanner, src, offset, end, column);
    if src[offset] == 'e' as byte {
      assert scanner == EWordScanner;
      assert ScanAt(src, offset, end, column) == LexEWord(src, offset, end, column);
      assert "enum"[1..] == "num";
    } else {
      assert Enum !in KindsOf(scanner);
    }
  }

  /** Dispatching yields the word `for` exactly when it is followed by a space; nothing else does. */
  lemma ForWord(src: seq<byte>, offset: nat, end: nat, column: nat)
    requires offset < end <= |src| && Dispatch(src[offset]).Some?
    ensures var r := ScanAt(src, offset, end, column);
      (r.Ok? && r.kind == For <==> FollowedBySpace(src, offset, end, "for"))
  {
    var scanner := Dispatch(src[offset]).value;
    ScanKinds(scanner, src, offset, end, column);
    if src[offset] == 'f' as byte {
      assert scanner == FWordScanner;
      assert ScanAt(src, offset, end, column) == LexFWord(src, offset, end, column);
      assert "for"[1..] == "or";
    } else {
      assert For !in KindsOf(scanner);
    }
  }

  /** Dispatching yields the word `if` exactly when it is followed by a space; nothing else does. */
  lemma IfWord(src: seq<byte>, offset: nat, end: nat, column: nat)
    requires offset < end <= |src| && Dispatch(src[offset]).Some?
    ensures var r := ScanAt(src, offset, end, column);
      (r.Ok? && r.kind == If <==> FollowedBySpace(src, offset, end, "if"))
  {
    var scanner := Dispatch(src[offset]).value;
    ScanKinds(scanner, src, offset, end, column);
    if src[offset] == 'i' as byte {
      assert scanner == IWordScanner;
      assert ScanAt(src, offset, end, column) == LexIWord(src, offset, end, column);
      assert "if"[1..] == "f";
    } else {
      assert If !in KindsOf(scanner);
    }
  }

  /** Dispatching yields the word `import` exactly when it is followed by a space; nothing else does. */
  lemma ImportWord(src: seq<byte>, offset: nat, end: nat, column: nat)
    requires offset < end <= |src| && Dispatch(src[offset]).Some?
    ensures var r := ScanAt(src, offset, end, column);
      (r.Ok? && r.kind == Import <==> FollowedBySpace(src, offset, end, "import"))
  {
    var scanner := Dispatch(src[offset]).value;
    ScanKinds(scanner, src, offset, end, column);
    if src[offset] == 'i' as byte {
      assert scanner == IWordScanner;
      assert ScanAt(src, offset, end, column) == LexIWord(src, offset, end, column);
      assert "import"[1..] == "mport";
    } else {
      assert Import !in KindsOf(scanner);
    }
  }
}
