/**
 * What the tokens `lex` produces say about the buffer, stated without the
 * driver's own recursion: the tokens tile the input in order, separated only
 * by skipped blanks; each carries the line and column of its first byte; an
 * indentation token covers groups of four spaces at the start of a line; an
 * end-of-line token ends in a line feed; and an error or a token written
 * forever is reported where it happened.
 */
module DriverProperties {
  import opened Tokens
  import opened ByteClasses
  import opened Scanners
  import opened Driver

  /** Bytes `[from, to)` were skipped: none at all, or a space followed by spaces and tabs. */
  predicate Gap(src: seq<byte>, from: nat, to: nat)
  {
    Run(src, from, to, Blanks) && (from < to ==> src[from] == SPACE)
  }

  /** The number of the line after token `t` of line `line`. */
  function NextLine(t: Token, line: nat): nat
  {
    if t.kind == EndOfLine then line + 1 else line
  }

  /** The start of the line after token `t` of the line that starts at `lineStart`. */
  function NextStart(t: Token, lineStart: nat): nat
  {
    if t.kind == EndOfLine then t.offset + t.length else lineStart
  }

  /**
   * Token `t` lies on line number `line`, which starts at `lineStart`: its
   * column counts from 1 at the line start; an indentation token covers
   * `level` groups of four spaces at the start of the line; an end-of-line
   * token is carriage returns and then a line feed; other tokens have level 0.
   */
  predicate Placed(src: seq<byte>, t: Token, line: nat, lineStart: nat)
  {
    && t.offset + t.length <= |src|
    && t.line == line
    && lineStart <= t.offset && t.column == 1 + t.offset - lineStart
    && (t.kind == Indent ==>
          t.offset == lineStart && t.level >= 1 && t.length == 4 * t.level && Run(src, t.offset, t.offset + t.length, Spaces))
    && (t.kind != Indent ==> t.level == 0)
    && (t.kind == EndOfLine ==>
          0 < t.length && src[t.offset + t.length - 1] == LF && Run(src, t.offset, t.offset + t.length - 1, CarriageReturns))
  }

  /**
   * `ts` are the tokens of bytes `[from, to)`, in order and not overlapping,
   * none of them empty, with only skipped blanks before each of them and
   * after the last; the first lies on line `line`, which starts at `lineStart`.
   */
  predicate Tiles(src: seq<byte>, from: nat, to: nat, ts: seq<Token>, line: nat, lineStart: nat)
    decreases |ts|
  {
    if ts == [] then Gap(src, from, to)
    else
      var t := ts[0];
      && from <= t.offset && Gap(src, from, t.offset)
      && 0 < t.length && t.offset + t.length <= to
      && Placed(src, t, line, lineStart)
      && Tiles(src, t.offset + t.length, to, ts[1..], NextLine(t, line), NextStart(t, lineStart))
  }

  /** The line number after the tokens `ts`, the first of which lies on line `line`. */
  function LineAfter(ts: seq<Token>, line: nat): nat
    decreases |ts|
  {
    if ts == [] then line else LineAfter(ts[1..], NextLine(ts[0], line))
  }

  /** The start of the line after the tokens `ts`, the first of which lies on the line that starts at `lineStart`. */
  function StartAfter(ts: seq<Token>, lineStart: nat): nat
    decreases |ts|
  {
    if ts == [] then lineStart else StartAfter(ts[1..], NextStart(ts[0], lineStart))
  }

  /**
   * Error `e`, raised while lexing the token at `at` on line number `line`
   * (which starts at `lineStart`), names that line and where it ends, and
   * where in it the fault is: inside the indentation, at a byte the table
   * has no scanner for, or where a scanner gave up.
   */
  predicate Reported(src: seq<byte>, end: nat, e: LexerError, at: nat, line: nat, lineStart: nat)
  {
    && lineStart <= at < end <= |src|
    && e.line == line && e.lineStart == lineStart && e.lineEnd == LineEnd(src, at)
    && (e.message == InvalidIndentation ==>
          && at == lineStart && 1 <= e.column && (e.column - 1) % 4 == 0
          && at + (e.column - 1) < e.offset <= at + e.column + 2
          && MaximalRun(src, at, e.offset, end, Spaces))
    && (e.message == InvalidCharacter ==>
          e.offset == at && e.column == 1 + at - lineStart && Dispatch(src[at]).None?)
    && (e.message != InvalidIndentation && e.message != InvalidCharacter ==>
          at <= e.offset <= end && e.column == 1 + e.offset - lineStart)
  }

  /**
   * The zero-length token `t` the C loop writes forever: an infix function
   * name at an apostrophe or a reference name at a bar, at the position of
   * line number `line` (which starts at `lineStart`) where lexing stopped.
   */
  predicate Repeats(src: seq<byte>, end: nat, t: Token, line: nat, lineStart: nat)
  {
    && t.offset < end <= |src| && t.length == 0 && t.level == 0
    && t.line == line && lineStart <= t.offset && t.column == 1 + t.offset - lineStart
    && ((src[t.offset] == APOSTROPHE && t.kind == InfixFunctionName) || (src[t.offset] == BAR && t.kind == ReferenceName))
  }

  /** Outcome `o` of lexing from `from`, on line number `line` that starts at `lineStart`, is sound. */
  predicate SoundFrom(src: seq<byte>, end: nat, o: LexOutcome, from: nat, line: nat, lineStart: nat)
  {
    match o
    case Lexed(ts) =>
      Tiles(src, from, end, ts, line, lineStart)
    case Failed(ts, e, at) =>
      Tiles(src, from, at, ts, line, lineStart) && Reported(src, end, e, at, LineAfter(ts, line), StartAfter(ts, lineStart))
    case Stuck(ts, t) =>
      Tiles(src, from, t.offset, ts, line, lineStart) && Repeats(src, end, t, LineAfter(ts, line), StartAfter(ts, lineStart))
  }

  /** The number of end-of-line tokens in `ts`. */
  function EndsOfLine(ts: seq<Token>): nat
  {
    if ts == [] then 0 else (if ts[0].kind == EndOfLine then 1 else 0) + EndsOfLine(ts[1..])
  }

  // ---------------------------------------------------------------------
  // Lemmas

  /**
   * Tiling tokens, one by one: each starts no earlier than the previous one
   * ends; each lies on the line numbered `line` plus the end-of-line tokens
   * before it; and its column counts from the end of the last of those.
   */
  lemma {:induction false} TilesLines(src: seq<byte>, from: nat, to: nat, ts: seq<Token>, line: nat, lineStart: nat)
    requires Tiles(src, from, to, ts, line, lineStart)
    ensures forall k | 0 <= k < |ts| - 1 :: ts[k].offset + ts[k].length <= ts[k + 1].offset
    ensures forall k | 0 <= k < |ts| :: ts[k].line == line + EndsOfLine(ts[..k])
    ensures forall k | 0 <= k < |ts| :: ts[k].column == 1 + ts[k].offset - StartAfter(ts[..k], lineStart)
    decreases |ts|
  {
    if ts != [] {
      var t, rest := ts[0], ts[1..];
      TilesLines(src, t.offset + t.length, to, rest, NextLine(t, line), NextStart(t, lineStart));
      assert ts[..0] == [];
      forall k | 1 <= k < |ts|
        ensures ts[k].line == line + EndsOfLine(ts[..k])
        ensures ts[k].column == 1 + ts[k].offset - StartAfter(ts[..k], lineStart)
      {
        assert ts[..k][0] == t && ts[..k][1..] == rest[..k - 1];
      }
      if 1 < |ts| {
        assert rest[0] == ts[1];
        TilesFirst(src, t.offset + t.length, to, rest, NextLine(t, line), NextStart(t, lineStart));
      }
    }
  }

  /** The first of tiling tokens starts no earlier than the tiled range. */
  lemma TilesFirst(src: seq<byte>, from: nat, to: nat, ts: seq<Token>, line: nat, lineStart: nat)
    requires Tiles(src, from, to, ts, line, lineStart) && ts != []
    ensures from <= ts[0].offset
  {
  }

  /** Tokens tile a range that does not run backwards. */
  lemma TilesOrdered(src: seq<byte>, from: nat, to: nat, ts: seq<Token>, line: nat, lineStart: nat)
    requires Tiles(src, from, to, ts, line, lineStart)
    ensures from <= to
  {
  }

  /** Two adjacent skipped stretches are one. */
  lemma GapJoin(src: seq<byte>, from: nat, mid: nat, to: nat)
    requires Gap(src, from, mid) && Gap(src, mid, to)
    ensures Gap(src, from, to)
  {
    assert forall i | from <= i < to :: InClass(Blanks, src[i]) by {
      forall i | from <= i < to
        ensures InClass(Blanks, src[i])
      {
        if i < mid {
          assert InClass(Blanks, src[i]);
        }
      }
    }
  }

  /** A sound outcome from `mid` is sound from `from` when `[from, mid)` was skipped. */
  lemma Widen(src: seq<byte>, end: nat, o: LexOutcome, from: nat, mid: nat, line: nat, lineStart: nat)
    requires Gap(src, from, mid) && SoundFrom(src, end, o, mid, line, lineStart)
    ensures SoundFrom(src, end, o, from, line, lineStart)
  {
    var to := match o case Lexed(_) => end case Failed(_, _, at) => at case Stuck(_, t) => t.offset;
    var ts := o.tokens;
    if ts == [] {
      GapJoin(src, from, mid, to);
    } else {
      GapJoin(src, from, mid, ts[0].offset);
    }
  }

  /** Tokens `ts` that tile from right after a placed token `t` tile from before it once `t` is prepended. */
  lemma PrependTiles(src: seq<byte>, t: Token, ts: seq<Token>, from: nat, to: nat, line: nat, lineStart: nat,
                     next: nat, nextLine: nat, nextStart: nat)
    requires from <= t.offset && Gap(src, from, t.offset) && 0 < t.length && Placed(src, t, line, lineStart)
    requires next == t.offset + t.length && nextLine == NextLine(t, line) && nextStart == NextStart(t, lineStart)
    requires Tiles(src, next, to, ts, nextLine, nextStart)
    ensures Tiles(src, from, to, [t] + ts, line, lineStart)
    ensures LineAfter([t] + ts, line) == LineAfter(ts, nextLine)
    ensures StartAfter([t] + ts, lineStart) == StartAfter(ts, nextStart)
  {
    TilesOrdered(src, next, to, ts, nextLine, nextStart);
    assert ([t] + ts)[0] == t && ([t] + ts)[1..] == ts;
  }

  /** Writing a placed token `t` before a sound outcome that starts right after it. */
  lemma Prepend(src: seq<byte>, end: nat, t: Token, o: LexOutcome, from: nat, line: nat, lineStart: nat,
                next: nat, nextLine: nat, nextStart: nat)
    requires from <= t.offset && Gap(src, from, t.offset) && 0 < t.length && Placed(src, t, line, lineStart)
    requires next == t.offset + t.length && nextLine == NextLine(t, line) && nextStart == NextStart(t, lineStart)
    requires SoundFrom(src, end, o, next, nextLine, nextStart)
    ensures SoundFrom(src, end, After([t], o), from, line, lineStart)
  {
    match o
    case Lexed(ts) =>
      PrependTiles(src, t, ts, from, end, line, lineStart, next, nextLine, nextStart);
    case Failed(ts, e, at) =>
      PrependTiles(src, t, ts, from, at, line, lineStart, next, nextLine, nextStart);
    case Stuck(ts, u) =>
      PrependTiles(src, t, ts, from, u.offset, line, lineStart, next, nextLine, nextStart);
  }

  /** What a line-end scanner consumed: carriage returns and then a line feed. */
  lemma EolScanned(src: seq<byte>, offset: nat, end: nat, column: nat, line: nat, lineStart: nat, o: nat, c: nat)
    requires offset < end <= |src| && Dispatch(src[offset]).Some? && ScanAt(src, offset, end, column) == OkEol(o, c)
    requires lineStart <= offset && column == 1 + offset - lineStart
    ensures offset < o <= end && src[o - 1] == LF && Run(src, offset, o - 1, CarriageReturns)
    ensures c == 1 + o - lineStart
    ensures Placed(src, Token(EndOfLine, offset, o - offset, line, column, 0), line, lineStart)
  {
    ScanKinds(Dispatch(src[offset]).value, src, offset, end, column);
  }

  /** What the space scanner skipped: a space and then spaces and tabs. */
  lemma SkipScanned(src: seq<byte>, offset: nat, end: nat, column: nat, o: nat, c: nat)
    requires offset < end <= |src| && Dispatch(src[offset]).Some? && ScanAt(src, offset, end, column) == OkNoToken(o, c)
    ensures Gap(src, offset, o)
  {
    ScanKinds(Dispatch(src[offset]).value, src, offset, end, column);
  }

  /** No sub-scanner yields an indentation or an end-of-line token. */
  lemma TokenScanned(src: seq<byte>, offset: nat, end: nat, column: nat, line: nat, lineStart: nat, o: nat, c: nat, kind: TokenKind)
    requires offset < end <= |src| && Dispatch(src[offset]).Some? && ScanAt(src, offset, end, column) == Ok(o, c, kind)
    requires lineStart <= offset && column == 1 + offset - lineStart
    ensures kind != Indent && kind != EndOfLine
    ensures offset <= o <= end && c == 1 + o - lineStart
    ensures Placed(src, Token(kind, offset, o - offset, line, column, 0), line, lineStart)
  {
    ScanKinds(Dispatch(src[offset]).value, src, offset, end, column);
  }

  /** Everything lexed from the start of a line, which is line number `line + 1`. */
  lemma {:induction false} LinesSound(src: seq<byte>, end: nat, offset: nat, line: nat)
    requires offset <= end <= |src|
    ensures SoundFrom(src, end, LexLines(src, end, offset, line), offset, line + 1, offset)
    decreases end - offset, 1
  {
    if offset < end {
      match LexIndents(src, offset, end, 1, 0)
      case IndentError(o, c) =>
        IndentErrorSound(src, end, offset, line, o, c);
      case IndentFound(o, c, level) =>
        IndentFoundSound(src, end, offset, line, o, c, level);
      case IndentNotFound(o, c) =>
        IndentNotFoundStep(src, end, offset, line, o, c);
        TokensSound(src, end, offset, c, line + 1, offset);
    }
  }

  /** `LinesSound` where the line starts with a malformed indentation. */
  lemma IndentErrorSound(src: seq<byte>, end: nat, offset: nat, line: nat, o: nat, c: nat)
    requires offset < end <= |src| && LexIndents(src, offset, end, 1, 0) == IndentError(o, c)
    ensures SoundFrom(src, end, LexLines(src, end, offset, line), offset, line + 1, offset)
  {
    IndentErrorStep(src, end, offset, line, o, c);
    var e := LexerError(o, offset, LineEnd(src, offset), line + 1, c, InvalidIndentation);
    assert Reported(src, end, e, offset, line + 1, offset);
  }

  /** The indentation token of a line: groups of four spaces at its start. */
  lemma IndentPlaced(src: seq<byte>, end: nat, offset: nat, line: nat, o: nat, c: nat, level: nat)
    requires offset < end <= |src| && LexIndents(src, offset, end, 1, 0) == IndentFound(o, c, level)
    ensures offset < o <= end && c == 1 + o - offset
    ensures var t := Token(Indent, offset, o - offset, line, 1, level);
      && Placed(src, t, line, offset) && 0 < t.length
      && t.offset + t.length == o && NextLine(t, line) == line && NextStart(t, offset) == offset
  {
  }

  /** `LinesSound` where the line starts with an indentation token. */
  lemma {:induction false} IndentFoundSound(src: seq<byte>, end: nat, offset: nat, line: nat, o: nat, c: nat, level: nat)
    requires offset < end <= |src| && LexIndents(src, offset, end, 1, 0) == IndentFound(o, c, level)
    ensures SoundFrom(src, end, LexLines(src, end, offset, line), offset, line + 1, offset)
    decreases end - offset, 0, 2
  {
    IndentFoundStep(src, end, offset, line, o, c, level);
    IndentPlaced(src, end, offset, line + 1, o, c, level);
    TokensSound(src, end, o, c, line + 1, offset);
    var t := Token(Indent, offset, o - offset, line + 1, 1, level);
    Prepend(src, end, t, LexTokens(src, end, o, c, line + 1, offset), offset, line + 1, offset, o, line + 1, offset);
  }

  /** Everything lexed from `offset` inside line number `line`, which starts at `lineStart`. */
  lemma {:induction false} TokensSound(src: seq<byte>, end: nat, offset: nat, column: nat, line: nat, lineStart: nat)
    requires offset <= end <= |src| && lineStart <= offset && column == 1 + offset - lineStart
    ensures SoundFrom(src, end, LexTokens(src, end, offset, column, line, lineStart), offset, line, lineStart)
    decreases end - offset, 0, 1
  {
    if offset == end {
    } else if Dispatch(src[offset]).None? {
      RejectStep(src, end, offset, column, line, lineStart);
    } else {
      match ScanAt(src, offset, end, column)
      case OkEol(o, c) =>
        EolSound(src, end, offset, column, line, lineStart, o, c);
      case Ok(o, c, kind) =>
        TokenSound(src, end, offset, column, line, lineStart, o, c, kind);
      case OkNoToken(o, c) =>
        SkipSound(src, end, offset, column, line, lineStart, o, c);
      case Error(eo, ec, m) =>
        ErrorStep(src, end, offset, column, line, lineStart, eo, ec, m);
    }
  }

  /** `TokensSound` where the scanner ends the line. */
  lemma {:induction false} EolSound(src: seq<byte>, end: nat, offset: nat, column: nat, line: nat, lineStart: nat, o: nat, c: nat)
    requires offset < end <= |src| && lineStart <= offset && column == 1 + offset - lineStart
    requires Dispatch(src[offset]).Some? && ScanAt(src, offset, end, column) == OkEol(o, c)
    ensures SoundFrom(src, end, LexTokens(src, end, offset, column, line, lineStart), offset, line, lineStart)
    decreases end - offset, 0, 0
  {
    EolStep(src, end, offset, column, line, lineStart, o, c);
    EolScanned(src, offset, end, column, line, lineStart, o, c);
    LinesSound(src, end, o, line);
    var t := Token(EndOfLine, offset, o - offset, line, column, 0);
    assert t.offset + t.length == o && NextLine(t, line) == line + 1 && NextStart(t, lineStart) == o;
    Prepend(src, end, t, LexLines(src, end, o, line), offset, line, lineStart, o, line + 1, o);
  }

  /** `TokensSound` where the scanner yields a token. */
  lemma {:induction false} TokenSound(src: seq<byte>, end: nat, offset: nat, column: nat, line: nat, lineStart: nat,
                                      o: nat, c: nat, kind: TokenKind)
    requires offset < end <= |src| && lineStart <= offset && column == 1 + offset - lineStart
    requires Dispatch(src[offset]).Some? && ScanAt(src, offset, end, column) == Ok(o, c, kind)
    ensures SoundFrom(src, end, LexTokens(src, end, offset, column, line, lineStart), offset, line, lineStart)
    decreases end - offset, 0, 0
  {
    TokenScanned(src, offset, end, column, line, lineStart, o, c, kind);
    if o == offset {
      StuckSound(src, end, offset, column, line, lineStart, kind);
    } else {
      TokenStep(src, end, offset, column, line, lineStart, o, c, kind);
      TokensSound(src, end, o, c, line, lineStart);
      var t := Token(kind, offset, o - offset, line, column, 0);
      assert t.offset + t.length == o && NextLine(t, line) == line && NextStart(t, lineStart) == lineStart;
      Prepend(src, end, t, LexTokens(src, end, o, c, line, lineStart), offset, line, lineStart, o, line, lineStart);
    }
  }

  /** `TokensSound` where the scanner yields a token without consuming anything. */
  lemma StuckSound(src: seq<byte>, end: nat, offset: nat, column: nat, line: nat, lineStart: nat, kind: TokenKind)
    requires offset < end <= |src| && lineStart <= offset && column == 1 + offset - lineStart
    requires Dispatch(src[offset]).Some? && ScanAt(src, offset, end, column) == Ok(offset, column, kind)
    ensures SoundFrom(src, end, LexTokens(src, end, offset, column, line, lineStart), offset, line, lineStart)
  {
    TokenStep(src, end, offset, column, line, lineStart, offset, column, kind);
    ScanProgress(src, offset, end, column);
  }

  /** `TokensSound` where the scanner skips blanks. */
  lemma {:induction false} SkipSound(src: seq<byte>, end: nat, offset: nat, column: nat, line: nat, lineStart: nat, o: nat, c: nat)
    requires offset < end <= |src| && lineStart <= offset && column == 1 + offset - lineStart
    requires Dispatch(src[offset]).Some? && ScanAt(src, offset, end, column) == OkNoToken(o, c)
    ensures SoundFrom(src, end, LexTokens(src, end, offset, column, line, lineStart), offset, line, lineStart)
    decreases end - offset, 0, 0
  {
    SkipStep(src, end, offset, column, line, lineStart, o, c);
    SkipScanned(src, offset, end, column, o, c);
    TokensSound(src, end, o, c, line, lineStart);
    Widen(src, end, LexTokens(src, end, o, c, line, lineStart), offset, o, line, lineStart);
  }

  /**
   * What `Lex` hands back, read through `LexSound`: on success the queue
   * tiles the input; on failure the error names the line after the tokens
   * written, and an invalid character is one the table has no scanner for,
   * after the tokens that tile the input up to it; on divergence the
   * repeated token comes last, after the tokens that tile the input up to it.
   */
  lemma LexResultSound(src: seq<byte>, end: nat, written: seq<Token>, result: LexerResult)
    requires end <= |src| && Reports(LexSpec(src, end), written, result)
    ensures result.LexerOk? ==> Tiles(src, 0, end, written, 1, 0)
    ensures result.LexerFailed? ==>
      var e := result.error;
      && e.line == LineAfter(written, 1) && e.lineStart == StartAfter(written, 0)
      && e.lineStart <= e.offset <= end
      && (e.message == InvalidCharacter ==> e.offset < end && Dispatch(src[e.offset]).None? && Tiles(src, 0, e.offset, written, 1, 0))
    ensures result.Diverges? ==>
      var t, before := result.repeated, written[..|written| - 1];
      && 0 < |written| && written[|written| - 1] == t
      && Tiles(src, 0, t.offset, before, 1, 0) && Repeats(src, end, t, LineAfter(before, 1), StartAfter(before, 0))
  {
    LexSound(src, end);
    match LexSpec(src, end)
    case Lexed(ts) =>
    case Failed(ts, e, at) =>
    case Stuck(ts, t) =>
      assert (ts + [t])[..|ts + [t]| - 1] == ts;
  }

  /**
   * Soundness of `lex`: the first `end` bytes of `src` lex to tokens that
   * tile them from line 1, column 1, and a failure or a token written
   * forever is reported after those tokens, where it happened.
   */
  lemma LexSound(src: seq<byte>, end: nat)
    requires end <= |src|
    ensures SoundFrom(src, end, LexSpec(src, end), 0, 1, 0)
  {
    LinesSound(src, end, 0, 0);
  }
}
