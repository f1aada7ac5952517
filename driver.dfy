/**
 * The `lex` driver of lex.c: line by line, an indentation token, then the
 * language tokens of the line, each produced by the sub-scanner the byte
 * table picks, until an end-of-line token, the end of the input or an error.
 *
 * `LexLines` and `LexTokens` are the reference definition, one call per
 * iteration of the outer and the inner loop; `Lex` is the loop itself,
 * writing into a `TokenQueue`, and is proved to produce what they define.
 */
module Driver {
  import opened Wrappers
  import opened Tokens
  import opened ByteClasses
  import opened Scanners
  import opened TokenQueues

  /**
   * What lexing a buffer comes to: every token, or the tokens written before
   * an error (with `at`, the offset of the token being lexed when it
   * occurred), or the tokens written before a zero-length token that the
   * C loop writes again and again without ever moving on.
   */
  datatype LexOutcome =
    | Lexed(tokens: seq<Token>)
    | Failed(tokens: seq<Token>, error: LexerError, at: nat)
    | Stuck(tokens: seq<Token>, repeated: Token)

  /** `LexerResult`, with divergence made explicit: the C function never returns then. */
  datatype LexerResult =
    | LexerOk
    | LexerFailed(error: LexerError)
    | Diverges(repeated: Token)

  /** The outcome with `prefix` written before anything else. */
  function After(prefix: seq<Token>, o: LexOutcome): (r: LexOutcome)
    ensures r.tokens == prefix + o.tokens
    ensures r.Lexed? == o.Lexed? && r.Failed? == o.Failed? && r.Stuck? == o.Stuck?
    ensures r.Failed? ==> r.error == o.error && r.at == o.at
    ensures r.Stuck? ==> r.repeated == o.repeated
  {
    match o
    case Lexed(ts) => Lexed(prefix + ts)
    case Failed(ts, e, at) => Failed(prefix + ts, e, at)
    case Stuck(ts, t) => Stuck(prefix + ts, t)
  }

  /** Writing `p` and then `q` before an outcome is writing `p + q` before it. */
  lemma AfterAfter(p: seq<Token>, q: seq<Token>, o: LexOutcome)
    ensures After(p, After(q, o)) == After(p + q, o)
  {
    assert p + (q + o.tokens) == (p + q) + o.tokens;
  }

  // ---------------------------------------------------------------------
  // find_eol

  /**
   * `find_eol`: the first line feed or NUL at or after `o`. The buffer is
   * NUL-terminated in the C program; here the search also stops at its end.
   */
  function LineEnd(src: seq<byte>, o: nat): (e: nat)
    requires o <= |src|
    ensures o <= e <= |src|
    ensures e == |src| || src[e] == LF || src[e] == NUL
    ensures forall i | o <= i < e :: src[i] != LF && src[i] != NUL
    decreases |src| - o
  {
    if o == |src| || src[o] == LF || src[o] == NUL then o else LineEnd(src, o + 1)
  }

  /** The loop of `find_eol`. */
  method FindEol(src: seq<byte>, offset: nat) returns (e: nat)
    requires offset <= |src|
    ensures e == LineEnd(src, offset)
  {
    e := offset;
    while e != |src| && src[e] != NUL && src[e] != LF
      invariant offset <= e <= |src|
      invariant LineEnd(src, e) == LineEnd(src, offset)
      decreases |src| - e
    {
      e := e + 1;
    }
  }

  // ---------------------------------------------------------------------
  // The reference definition

  /**
   * One iteration of the outer loop and everything after it: `offset` is
   * the start of a line and `line` counts the lines begun so far. The C
   * variable `line_start` equals `offset` here.
   */
  function LexLines(src: seq<byte>, end: nat, offset: nat, line: nat): (r: LexOutcome)
    requires offset <= end <= |src|
    decreases end - offset, 1
  {
    if offset == end then Lexed([])
    else
      var line := line + 1;
      match LexIndents(src, offset, end, 1, 0)
      case IndentError(o, c) =>
        Failed([], LexerError(o, offset, LineEnd(src, offset), line, c, InvalidIndentation), offset)
      case IndentFound(o, c, level) =>
        After([Token(Indent, offset, o - offset, line, 1, level)], LexTokens(src, end, o, c, line, offset))
      case IndentNotFound(o, c) =>
        LexTokens(src, end, o, c, line, offset)
  }

  /**
   * One iteration of the inner loop and everything after it: `offset` is
   * inside line number `line`, which starts at `lineStart`.
   */
  function LexTokens(src: seq<byte>, end: nat, offset: nat, column: nat, line: nat, lineStart: nat): (r: LexOutcome)
    requires offset <= end <= |src|
    decreases end - offset, 0
  {
    if offset == end then Lexed([])
    else if Dispatch(src[offset]).None? then
      Failed([], LexerError(offset, lineStart, LineEnd(src, offset), line, column, InvalidCharacter), offset)
    else
      ScanProgress(src, offset, end, column);
      match ScanAt(src, offset, end, column)
      case OkEol(o, c) =>
        After([Token(EndOfLine, offset, o - offset, line, column, 0)], LexLines(src, end, o, line))
      case Ok(o, c, kind) =>
        var t := Token(kind, offset, o - offset, line, column, 0);
        if o == offset then Stuck([], t) else After([t], LexTokens(src, end, o, c, line, lineStart))
      case OkNoToken(o, c) =>
        LexTokens(src, end, o, c, line, lineStart)
      case Error(eo, ec, m) =>
        Failed([], LexerError(eo, lineStart, LineEnd(src, offset), line, ec, m), offset)
  }

  /** Lexing the first `end` bytes of `src`. */
  function LexSpec(src: seq<byte>, end: nat): LexOutcome
    requires end <= |src|
  {
    LexLines(src, end, 0, 0)
  }

  /** A step of `LexTokens` whose scanner ends the line. */
  lemma EolStep(src: seq<byte>, end: nat, offset: nat, column: nat, line: nat, lineStart: nat, o: nat, c: nat)
    requires offset < end <= |src| && Dispatch(src[offset]).Some? && ScanAt(src, offset, end, column) == OkEol(o, c)
    ensures offset < o <= end
    ensures LexTokens(src, end, offset, column, line, lineStart)
      == After([Token(EndOfLine, offset, o - offset, line, column, 0)], LexLines(src, end, o, line))
  {
    ScanProgress(src, offset, end, column);
  }

  /**
   * A step of `LexTokens` whose scanner yields a token: it is written and
   * lexing goes on after it, unless it is empty.
   */
  lemma TokenStep(src: seq<byte>, end: nat, offset: nat, column: nat, line: nat, lineStart: nat, o: nat, c: nat, kind: TokenKind)
    requires offset < end <= |src| && Dispatch(src[offset]).Some? && ScanAt(src, offset, end, column) == Ok(o, c, kind)
    ensures offset <= o <= end
    ensures o == offset ==> LexTokens(src, end, offset, column, line, lineStart) == Stuck([], Token(kind, offset, o - offset, line, column, 0))
    ensures o != offset ==>
      LexTokens(src, end, offset, column, line, lineStart)
        == After([Token(kind, offset, o - offset, line, column, 0)], LexTokens(src, end, o, c, line, lineStart))
  {
    ScanProgress(src, offset, end, column);
  }

  /** A step of `LexTokens` whose scanner skips blanks. */
  lemma SkipStep(src: seq<byte>, end: nat, offset: nat, column: nat, line: nat, lineStart: nat, o: nat, c: nat)
    requires offset < end <= |src| && Dispatch(src[offset]).Some? && ScanAt(src, offset, end, column) == OkNoToken(o, c)
    ensures offset < o <= end
    ensures LexTokens(src, end, offset, column, line, lineStart) == LexTokens(src, end, o, c, line, lineStart)
  {
    ScanProgress(src, offset, end, column);
  }

  /** A step of `LexTokens` whose scanner fails. */
  lemma ErrorStep(src: seq<byte>, end: nat, offset: nat, column: nat, line: nat, lineStart: nat, eo: nat, ec: nat, m: Message)
    requires offset < end <= |src| && Dispatch(src[offset]).Some? && ScanAt(src, offset, end, column) == Error(eo, ec, m)
    ensures LexTokens(src, end, offset, column, line, lineStart)
      == Failed([], LexerError(eo, lineStart, LineEnd(src, offset), line, ec, m), offset)
  {
  }

  /** A step of `LexLines` whose line starts with a malformed indentation. */
  lemma IndentErrorStep(src: seq<byte>, end: nat, offset: nat, line: nat, o: nat, c: nat)
    requires offset < end <= |src| && LexIndents(src, offset, end, 1, 0) == IndentError(o, c)
    ensures LexLines(src, end, offset, line)
      == Failed([], LexerError(o, offset, LineEnd(src, offset), line + 1, c, InvalidIndentation), offset)
  {
  }

  /** A step of `LexLines` whose line starts with an indentation token. */
  lemma IndentFoundStep(src: seq<byte>, end: nat, offset: nat, line: nat, o: nat, c: nat, level: nat)
    requires offset < end <= |src| && LexIndents(src, offset, end, 1, 0) == IndentFound(o, c, level)
    ensures offset < o <= end
    ensures LexLines(src, end, offset, line)
      == After([Token(Indent, offset, o - offset, line + 1, 1, level)], LexTokens(src, end, o, c, line + 1, offset))
  {
  }

  /** A step of `LexLines` whose line starts without indentation. */
  lemma IndentNotFoundStep(src: seq<byte>, end: nat, offset: nat, line: nat, o: nat, c: nat)
    requires offset < end <= |src| && LexIndents(src, offset, end, 1, 0) == IndentNotFound(o, c)
    ensures o == offset
    ensures LexLines(src, end, offset, line) == LexTokens(src, end, offset, c, line + 1, offset)
  {
  }

  /** `LexTokens` at a byte the table has no scanner for. */
  lemma RejectStep(src: seq<byte>, end: nat, offset: nat, column: nat, line: nat, lineStart: nat)
    requires offset < end <= |src| && Dispatch(src[offset]).None?
    ensures LexTokens(src, end, offset, column, line, lineStart)
      == Failed([], LexerError(offset, lineStart, LineEnd(src, offset), line, column, InvalidCharacter), offset)
  {
  }

  /** The queue holds the outcome's tokens and the result reports how it ended. */
  predicate Reports(o: LexOutcome, written: seq<Token>, result: LexerResult)
  {
    match o
    case Lexed(ts) => result == LexerOk && written == ts
    case Failed(ts, e, _) => result == LexerFailed(e) && written == ts
    case Stuck(ts, t) => result == Diverges(t) && written == ts + [t]
  }

  // ---------------------------------------------------------------------
  // The loop

  /**
   * `lex`. Where the C loop would write a zero-length token forever, this
   * writes it once and returns `Diverges` with it.
   */
  method Lex(src: seq<byte>, end: nat) returns (tokens: TokenQueue, result: LexerResult)
    requires end <= |src|
    ensures tokens.Valid() && fresh(tokens.Repr) && tokens.capacity == NodeSize
    ensures tokens.readHead == Some(0) && tokens.readCount == 0
    ensures Reports(LexSpec(src, end), tokens.written, result)
  {
    var offset := 0;
    var lineStart := 0;
    var line := 0;
    var column := 1;
    tokens := new TokenQueue(NodeSize);
    ghost var whole := LexSpec(src, end);

    while offset != end
      invariant offset <= end && lineStart == offset
      invariant tokens.Valid() && fresh(tokens.Repr) && tokens.capacity == NodeSize
      invariant tokens.readHead == Some(0) && tokens.readCount == 0
      invariant whole == After(tokens.written, LexLines(src, end, offset, line))
      decreases end - offset
    {
      var stop;
      offset, column, stop := LexIndent(src, end, tokens, offset, line, whole);
      if stop.Some? {
        return tokens, stop.value;
      }
      line := line + 1;
      offset, stop := LexLine(src, end, tokens, offset, column, line, lineStart, whole);
      if stop.Some? {
        return tokens, stop.value;
      }
      lineStart := offset;
    }
    result := LexerOk;
  }

  /**
   * The start of an iteration of the outer loop of `lex`: the indentation
   * token of the line that starts at `offset`, if there is one. `line`
   * lines have begun before it.
   */
  method LexIndent(src: seq<byte>, end: nat, tokens: TokenQueue, offset: nat, line: nat, ghost whole: LexOutcome)
    returns (next: nat, column: nat, stop: Option<LexerResult>)
    requires offset < end <= |src|
    requires tokens.Valid() && tokens.readHead == Some(0) && tokens.readCount == 0
    requires whole == After(tokens.written, LexLines(src, end, offset, line))
    modifies tokens, tokens.Repr
    ensures tokens.Valid() && fresh(tokens.Repr - old(tokens.Repr))
    ensures tokens.readHead == Some(0) && tokens.readCount == 0
    ensures stop.Some? ==> Reports(whole, tokens.written, stop.value)
    ensures stop.None? ==> offset <= next <= end
    ensures stop.None? ==> whole == After(tokens.written, LexTokens(src, end, next, column, line + 1, offset))
  {
    next, column, stop := offset, 1, None;
    var indent := LexIndents(src, offset, end, 1, 0);
    match indent
    case IndentError(o, c) =>
      IndentErrorStep(src, end, offset, line, o, c);
      var lineEnd := FindEol(src, offset);
      stop := Some(LexerFailed(LexerError(o, offset, lineEnd, line + 1, c, InvalidIndentation)));
    case IndentFound(o, c, level) =>
      IndentFoundStep(src, end, offset, line, o, c, level);
      Push(tokens, Token(Indent, offset, o - offset, line + 1, 1, level), LexTokens(src, end, o, c, line + 1, offset), whole);
      next, column := o, c;
    case IndentNotFound(o, c) =>
      IndentNotFoundStep(src, end, offset, line, o, c);
      column := c;
  }

  /**
   * The inner loop of `lex`: the language tokens of line `line` from
   * `offset` on, up to and including its end-of-line token. It returns the
   * offset after them, or how lexing ended if it ended on this line.
   */
  method LexLine(src: seq<byte>, end: nat, tokens: TokenQueue, offset: nat, column: nat, line: nat, lineStart: nat,
                 ghost whole: LexOutcome)
    returns (next: nat, stop: Option<LexerResult>)
    requires offset <= end <= |src|
    requires tokens.Valid() && tokens.readHead == Some(0) && tokens.readCount == 0
    requires whole == After(tokens.written, LexTokens(src, end, offset, column, line, lineStart))
    modifies tokens, tokens.Repr
    ensures tokens.Valid() && fresh(tokens.Repr - old(tokens.Repr))
    ensures tokens.readHead == Some(0) && tokens.readCount == 0
    ensures stop.Some? ==> Reports(whole, tokens.written, stop.value)
    ensures stop.None? ==> offset <= next <= end && (offset == next ==> next == end)
    ensures stop.None? ==> whole == After(tokens.written, LexLines(src, end, next, line))
  {
    next, stop := offset, None;
    var column := column;
    var lineEnded := false;
    while next != end && !lineEnded
      invariant offset <= next <= end && (lineEnded ==> offset < next) && stop.None?
      invariant tokens.Valid() && fresh(tokens.Repr - old(tokens.Repr))
      invariant tokens.readHead == Some(0) && tokens.readCount == 0
      invariant !lineEnded ==> whole == After(tokens.written, LexTokens(src, end, next, column, line, lineStart))
      invariant lineEnded ==> whole == After(tokens.written, LexLines(src, end, next, line))
      decreases end - next
    {
      next, column, lineEnded, stop := LexToken(src, end, tokens, next, column, line, lineStart, whole);
      if stop.Some? {
        return;
      }
    }
    if !lineEnded {
      assert LexTokens(src, end, next, column, line, lineStart) == Lexed([]);
      assert LexLines(src, end, next, line) == Lexed([]);
    }
  }

  /**
   * One iteration of the inner loop of `lex`: the scanner the table picks
   * for the byte at `offset` and the `switch` on its result, or the
   * invalid-character error if the table has no scanner for the byte.
   */
  method LexToken(src: seq<byte>, end: nat, tokens: TokenQueue, offset: nat, column: nat, line: nat, lineStart: nat,
                  ghost whole: LexOutcome)
    returns (next: nat, nextColumn: nat, lineEnded: bool, stop: Option<LexerResult>)
    requires offset < end <= |src|
    requires tokens.Valid() && tokens.readHead == Some(0) && tokens.readCount == 0
    requires whole == After(tokens.written, LexTokens(src, end, offset, column, line, lineStart))
    modifies tokens, tokens.Repr
    ensures tokens.Valid() && fresh(tokens.Repr - old(tokens.Repr))
    ensures tokens.readHead == Some(0) && tokens.readCount == 0
    ensures stop.Some? ==> Reports(whole, tokens.written, stop.value)
    ensures stop.None? ==> offset < next <= end
    ensures stop.None? && !lineEnded ==> whole == After(tokens.written, LexTokens(src, end, next, nextColumn, line, lineStart))
    ensures stop.None? && lineEnded ==> whole == After(tokens.written, LexLines(src, end, next, line))
  {
    next, nextColumn, lineEnded, stop := offset, column, false, None;
    var lexer := Dispatch(src[offset]);
    if lexer.Some? {
      var r := Scan(lexer.value, src, offset, end, column);
      match r
      case OkNoToken(o, c) =>
        SkipStep(src, end, offset, column, line, lineStart, o, c);
        next, nextColumn := o, c;
      case Error(eo, ec, m) =>
        var lineEnd := FindEol(src, offset);
        ErrorStep(src, end, offset, column, line, lineStart, eo, ec, m);
        stop := Some(LexerFailed(LexerError(eo, lineStart, lineEnd, line, ec, m)));
      case OkEol(o, c) =>
        EolStep(src, end, offset, column, line, lineStart, o, c);
        Push(tokens, Token(EndOfLine, offset, o - offset, line, column, 0), LexLines(src, end, o, line), whole);
        next, nextColumn, lineEnded := o, c, true;
      case Ok(o, c, kind) =>
        TokenStep(src, end, offset, column, line, lineStart, o, c, kind);
        var t := Token(kind, offset, o - offset, line, column, 0);
        if o == offset {
          tokens.Write(t);
          stop := Some(Diverges(t));
        } else {
          Push(tokens, t, LexTokens(src, end, o, c, line, lineStart), whole);
          next, nextColumn := o, c;
        }
    } else {
      var lineEnd := FindEol(src, offset);
      RejectStep(src, end, offset, column, line, lineStart);
      stop := Some(LexerFailed(LexerError(offset, lineStart, lineEnd, line, column, InvalidCharacter)));
    }
  }

  /** `token_queue_write` of the next token the outcome `whole` holds. */
  method Push(tokens: TokenQueue, t: Token, ghost following: LexOutcome, ghost whole: LexOutcome)
    requires tokens.Valid() && tokens.readHead == Some(0) && tokens.readCount == 0
    requires whole == After(tokens.written, After([t], following))
    modifies tokens, tokens.Repr
    ensures tokens.Valid() && fresh(tokens.Repr - old(tokens.Repr))
    ensures tokens.readHead == Some(0) && tokens.readCount == 0
    ensures whole == After(tokens.written, following)
  {
    AfterAfter(tokens.written, [t], following);
    tokens.Write(t);
  }
}
