# The swerve lexer

This is a model of the lexer of the swerve language. `lex` takes a byte buffer
and a bound `end` and turns the buffer into tokens, line by line. Each line may
start with an indentation token made of complete groups of four spaces. After it
come the language tokens of the line: names, reserved words, symbols, infix
function names, numbers, strings and keywords. Each token is produced by the
sub-scanner that a 256-entry table picks for its first byte, and the line ends
with an end-of-line token. Lexing stops at the end of the input or at the first
error. The tokens go into a chunked token queue: a chain of fixed-size chunks
that the lexer appends to and a reader drains.

The model has these modules:

- `Tokens`: bytes, token kinds, tokens, diagnostics and lexer errors.
- `ByteClasses`: the five tables of lex.c: the four character classes (reference, type, infix and literal-terminator bytes) and the `lexers` dispatch table.
- `Scanners`: `lex_indents` and every `lex_*` sub-scanner, as functions. Each has a contract that says which token it produces, and where and why it stops or fails.
- `Driver`: `find_eol`, a reference definition of `lex` (`LexLines` and `LexTokens`, one call per loop iteration), and the loop itself (`Lex`). `Lex` writes into a `TokenQueue` and is proved to write exactly the tokens and report exactly the result the reference definition gives.
- `DriverProperties`: what those tokens mean for the buffer, without the driver's recursion:
  - they tile the input in order, separated only by skipped blanks;
  - each carries the line and column of its first byte;
  - indentation tokens are groups of four spaces at the start of a line;
  - end-of-line tokens are carriage returns and then a line feed;
  - errors name the line they occurred on and where it ends.
- `TokenQueues`: the queue as a class over a sequence of arrays. It keeps an invariant that ties the slots to everything written so far, so that every read hands out the oldest unread token.

`lex` never returns when a token starts with an apostrophe or a bar. The
dispatch table sends these two bytes to a scanner whose class does not contain
them (`lex_infix` for the apostrophe, `lex_ref` for the bar). That scanner
yields a zero-length token without moving on, and the C loop writes the token
forever. The two bytes are harmless elsewhere: an apostrophe inside a string
literal and a bar inside an infix run are consumed like any other byte of the
token. The model writes the stuck token once and returns `Diverges` with it.
`Scanners.ScanProgress` and `DriverProperties.LexSound` state exactly when this
happens.

## Model

| member | source | states |
|---|---|---|
| ByteClasses.IsReferenceByte | src/swerve/lexer/lex.c:784-849 | the `reference_characters` table: a-z, 1-9 and the underscore; no upper case and no 0 |
| ByteClasses.IsTypeByte | src/swerve/lexer/lex.c:851-916 | the `type_characters` table: A-Z, a-z, 1-9 and the underscore; no 0 |
| ByteClasses.IsInfixByte | src/swerve/lexer/lex.c:918-983 | the `infix_characters` table: `! # $ % & * + - . / : ; < = > ? @ \ ^` and the backquote, bar and tilde |
| ByteClasses.IsLiteralTerminator | src/swerve/lexer/lex.c:985-1050 | the `literal_term_characters` table: tab, line feed, space and every punctuation byte but the double quote; no carriage return, letter or digit |
| ByteClasses.IsBlank | src/swerve/lexer/lex.c:95-99 | the bytes `lex_space` skips: space and tab |
| ByteClasses.IsDigit | src/swerve/lexer/lex.c:405-448 | the bytes `lex_int` and `lex_float` consume: 0-9 |
| ByteClasses.IsCarriageReturn | src/swerve/lexer/lex.c:117-119 | the byte `lex_eol` repeats on: carriage return |
| ByteClasses.Dispatch | src/swerve/lexer/lex.c:715-782 | the `lexers` table: the scanner for each first byte, or none (`lex_invalid`); properties in `DispatchDomain`, `DispatchMismatches`, `ScanProgress` and `ScanKinds` |
| ByteClasses.DispatchDomain | src/swerve/lexer/lex.c:715-782 | a byte has a scanner exactly when it is a line feed, a carriage return or printable ASCII (space to `~`); other control bytes, DEL and bytes from 128 up have none |
| ByteClasses.DispatchMismatches | src/swerve/lexer/lex.c:717-983 | each dispatched byte belongs to the class its scanner consumes first (infix, reference, type, digit or blank bytes), including `-` for the arrow scanner and `a d e f i` for the reserved-word scanners, whose fallbacks are `lex_infix` and `lex_ref`; the only exceptions are the apostrophe (sent to the infix scanner but not an infix byte) and the bar (sent to the reference scanner but not a reference byte) |
| Scanners.LexIndents | src/swerve/lexer/lex.c:16-53 | consumes whole groups of four spaces; found: level at least 1, offset and column moved by 4 per level, and the space run is maximal; not found: nothing consumed, next byte not a space; error: the column of the partial group and the offset of the first byte after its 1 to 3 spaces |
| Scanners.LexSpace | src/swerve/lexer/lex.c:89-108 | no token; the longest run of spaces and tabs is skipped, and the column moves with the offset |
| Scanners.LexEol | src/swerve/lexer/lex.c:110-141 | an end of line is carriage returns followed by a line feed; otherwise the error says that the byte after the maximal carriage-return run is not a line feed |
| Scanners.LexInfix | src/swerve/lexer/lex.c:143-161 | an InfixFunctionName over the longest run of infix bytes |
| Scanners.LexSingleSymbol | src/swerve/lexer/lex.c:163-264 | the one-byte symbol token when no infix byte follows it; otherwise an InfixFunctionName over the symbol and the maximal infix run after it |
| Scanners.LexKeyword | src/swerve/lexer/lex.c:266-284 | a Keyword over the longest run of reference bytes |
| Scanners.LexColon | src/swerve/lexer/lex.c:286-298 | Keyword exactly when a reference byte follows the colon; InfixFunctionName exactly when an infix byte follows; otherwise a one-byte Colon |
| Scanners.LexRightArrow | src/swerve/lexer/lex.c:300-320 | RightArrow (2 bytes) exactly when `->` is followed by a space; otherwise an infix run from the hyphen |
| Scanners.LexType | src/swerve/lexer/lex.c:322-340 | a TypeName over the longest run of type bytes |
| Scanners.LexRef | src/swerve/lexer/lex.c:342-360 | a ReferenceName over the longest run of reference bytes |
| Scanners.LexFloat | src/swerve/lexer/lex.c:362-403 | a Float over the maximal digit run when the input ends or a terminator byte follows it; otherwise an invalid-float-termination error at the byte after the run |
| Scanners.LexInt | src/swerve/lexer/lex.c:405-448 | after the maximal digit run: a point switches to the float rules; a terminator or the end of input gives exactly an Int token over the run; anything else gives exactly an invalid-int-termination error at that byte |
| Scanners.LexInnerString | src/swerve/lexer/lex.c:450-508 | a String token only when the text up to a closing quote is a well-formed body (escape pairs and bytes that are not a backslash, quote or line feed) and a terminator or the end of input follows; each error (termination, new line, unterminated) is tied to the text scanned before it, including a dangling backslash |
| Scanners.LexString | src/swerve/lexer/lex.c:510-517 | the same for a literal that starts at the opening quote: a String token, or exactly one of the three string errors, each with the body text that led to it |
| Scanners.LexAWord | src/swerve/lexer/lex.c:519-539 | As exactly when `as` is followed by a space; otherwise a maximal reference name |
| Scanners.LexDWord | src/swerve/lexer/lex.c:541-582 | Data or Def exactly when `data` or `def` is followed by a space; otherwise a maximal reference name |
| Scanners.LexEWord | src/swerve/lexer/lex.c:584-646 | Elif, Else or Enum exactly when the word is followed by a space; otherwise a maximal reference name |
| Scanners.LexFWord | src/swerve/lexer/lex.c:648-669 | For exactly when `for` is followed by a space; otherwise a maximal reference name |
| Scanners.LexIWord | src/swerve/lexer/lex.c:671-713 | If or Import exactly when the word is followed by a space; otherwise a maximal reference name |
| Scanners.Scan | src/swerve/lexer/lex.c:1120-1122 | every sub-scanner moves the column with the offset and stays within `end`; none reports an indentation or invalid-character error |
| Scanners.ScanProgress | src/swerve/lexer/lex.c:717-782 | a dispatched scanner that does not fail consumes at least one byte, except at an apostrophe or a bar, where it yields a zero-length InfixFunctionName or ReferenceName |
| Scanners.ScanKinds | src/swerve/lexer/lex.c:717-782 | each scanner's token is of one of its own kinds; only the end-of-line scanner ends a line, and only the space scanner yields no token |
| Scanners.RightArrowWord | src/swerve/lexer/lex.c:300-320 | through the table, a RightArrow token is produced exactly at `->` followed by a space |
| Scanners.AsWord | src/swerve/lexer/lex.c:519-539 | through the table, As is produced exactly at `as` followed by a space |
| Scanners.DataWord | src/swerve/lexer/lex.c:541-582 | through the table, Data is produced exactly at `data` followed by a space |
| Scanners.DefWord | src/swerve/lexer/lex.c:541-582 | through the table, Def is produced exactly at `def` followed by a space |
| Scanners.ElifWord | src/swerve/lexer/lex.c:584-646 | through the table, Elif is produced exactly at `elif` followed by a space |
| Scanners.ElseWord | src/swerve/lexer/lex.c:584-646 | through the table, Else is produced exactly at `else` followed by a space |
| Scanners.EnumWord | src/swerve/lexer/lex.c:584-646 | through the table, Enum is produced exactly at `enum` followed by a space |
| Scanners.ForWord | src/swerve/lexer/lex.c:648-669 | through the table, For is produced exactly at `for` followed by a space |
| Scanners.IfWord | src/swerve/lexer/lex.c:671-713 | through the table, If is produced exactly at `if` followed by a space |
| Scanners.ImportWord | src/swerve/lexer/lex.c:671-713 | through the table, Import is produced exactly at `import` followed by a space |
| Driver.LineEnd | src/swerve/lexer/lex.c:1052-1059 | the first line feed or NUL at or after the offset (or the end of the buffer), with none before it |
| Driver.FindEol | src/swerve/lexer/lex.c:1052-1059 | the loop of `find_eol` returns `LineEnd` |
| Driver.LexSpec | src/swerve/lexer/lex.c:1061-1072 | the reference definition of lexing a whole buffer: the line loop from offset 0 with no line begun; `Lex` is proved to follow it and `LexSound` states what its tokens mean |
| Driver.LexLines | src/swerve/lexer/lex.c:1071-1113 | one iteration of the line loop and everything after it: the line number goes up, an indentation error fails, an Indent token at column 1 carries its level, and the language tokens follow |
| Driver.LexTokens | src/swerve/lexer/lex.c:1118-1171 | one iteration of the token loop and everything after it: no scanner is an invalid character, an end of line continues with the next line, a token is written and lexing continues, blanks are skipped, an error fails with the line start and end, and a zero-length token is stuck |
| Driver.Lex | src/swerve/lexer/lex.c:1061-1179 | the queue is fresh, valid, unread, and holds exactly the tokens of the reference definition; the result is ok, the reference error, or divergence at the reference's zero-length token |
| Driver.LexIndent | src/swerve/lexer/lex.c:1071-1113 | the indentation step of a line: an indentation error ends lexing with the reference error; otherwise an Indent token is written when found, and lexing goes on in the line from the reference position and column |
| Driver.LexLine | src/swerve/lexer/lex.c:1118-1171 | the inner loop: tokens up to and including the end-of-line token as the reference gives them; it returns the next line's start, or how lexing ended |
| Driver.LexToken | src/swerve/lexer/lex.c:1119-1170 | one inner iteration: the dispatched scanner's token is written, blanks are skipped, or lexing ends with an error, invalid character or divergence, all as the reference gives them |
| Driver.Push | src/swerve/lexer/lex.c:1128-1138 | a `token_queue_write` of the driver (here and for the Indent token at lex.c:1096): the token written is the next one the reference outcome holds, and the queue stays valid and unread |
| DriverProperties.TilesLines | src/swerve/lexer/lex.c:1118-1142 | along tiling tokens, each token starts no earlier than the previous one ends; its line is the first line plus the end-of-line tokens before it; its column counts from 1 after the last of those |
| DriverProperties.LinesSound | src/swerve/lexer/lex.c:1071-1113 | lexing from a line start is sound: tokens tile the input, and errors and repeated tokens are reported where they happen |
| DriverProperties.TokensSound | src/swerve/lexer/lex.c:1118-1171 | lexing from inside a line is sound in the same sense |
| DriverProperties.LexSound | src/swerve/lexer/lex.c:1061-1179 | from line 1, column 1: tokens tile the lexed input; a failure reports the line number and line start after the tokens written, the line end, and where the fault is; a diverging run repeats a zero-length token at an apostrophe or a bar |
| DriverProperties.LexResultSound | src/swerve/lexer/lex.c:1061-1179 | what `Lex` returns: on success the queue tiles the input; on failure the error's line follows the written tokens, and an invalid character is a byte with no scanner, after tokens that tile the input up to it; on divergence the repeated token is the last one written |
| TokenQueues.TokenQueue.constructor | src/swerve/lexer/token_queue.c:4-13 | one empty chunk that is both read head and write tail; nothing written or read |
| TokenQueues.TokenQueue.Write | src/swerve/lexer/token_queue.c:25-33 | appends the token to everything written; links exactly one new chunk when the tail is full; no earlier slot and no read state changes |
| TokenQueues.TokenQueue.Grow | src/swerve/lexer/token_queue.c:26-30 | a fresh empty chunk is linked after the full tail and becomes the tail; the earlier chunks are kept |
| TokenQueues.TokenQueue.Append | src/swerve/lexer/token_queue.c:31-32 | the token goes in the next slot of the tail and is the last token written |
| TokenQueues.TokenQueue.Read | src/swerve/lexer/token_queue.c:35-45 | hands out the oldest unread token, or nothing when all were read; the read head runs off the chain exactly when it was on the last chunk and that chunk's read offset was full; from a drained earlier chunk it moves to the next one, whose read offset ends at 1 if a token was handed out and 0 otherwise |
| TokenQueues.TokenQueue.Advance | src/swerve/lexer/token_queue.c:36-38 | a drained read head moves to the next chunk with read offset 0, or off the chain after the last one, which happens only when everything was read |
| TokenQueues.TokenQueue.Take | src/swerve/lexer/token_queue.c:39-44 | the slot under the read cursor is handed out only if it was written; that is the oldest unread token |
| TokenQueues.TokenQueue.ReadGuarded | src/swerve/lexer/token_queue.c:35-45 | the corrected read: the same tokens in the same order, and the read head never leaves the chain |
| TokenQueues.DrainFullChunk | src/swerve/lexer/token_queue.c:35-45 | draining a queue of exactly one full chunk, then reading once more, leaves the read head off the chain, so a token written afterwards is never read |
| TokenQueues.DrainFullChunkGuarded | src/swerve/lexer/token_queue.c:35-45 | with the corrected read, the same sequence of operations hands out the late token |

## Left out

- `free_token_queue` (token_queue.c:15-23) only releases memory; the model has no deallocation.
- The program around the lexer (`main`, the token printer, the token-type names) is not part of this model.
- The `source` pointer of a token is left out: every token points into the one buffer, so a token keeps only its offset.
- Diagnostics are the `Message` variants. `Tokens.Text` gives their exact C strings.
- The C tables are indexed with `char`, which is signed on common targets, so a byte from 128 up indexes before the table. The model reads bytes as 0 to 255 and treats every such byte as having no scanner, as the table's unset entries do.
- Driver.Lex: where the C loop writes a zero-length token forever, the model writes it once and returns `Diverges`; it does not model running out of memory.
- Driver.LineEnd: `find_eol` relies on a NUL terminator and ignores `end`; the model also stops at the end of the buffer.
- TokenQueues.NodeSize: `TOKEN_QUEUE_NODE_SIZE` depends on the size of a token on the target; the model fixes 1169, the value for an LP64 target. The queue class itself takes any positive capacity.
- TokenQueues.TokenQueue.Grow: the C code leaves the offsets and `next` link of a newly allocated chunk uninitialised (token_queue.c:27); the model starts the chunk empty, which is what the rest of the code assumes.
- TokenQueues.TokenQueue.Read: requires that the read head is still on the chain, because the C code dereferences it unconditionally (token_queue.c:36).
- TokenQueues.TokenQueue: the chain of `next` pointers is modelled as a sequence of chunk arrays, so pointer aliasing between chunks is not modelled.
- Integers are unbounded; the C `size_t` offsets, lines and columns cannot overflow for any buffer that fits in memory.

## Findings

| source | as written | input that shows it | evidently intended | confidence | as-written member | corrected member |
|---|---|---|---|---|---|---|
| src/swerve/lexer/token_queue.c:35-45 | a read on a drained, full last chunk moves `read_head` to its null `next`; the following read dereferences null, and tokens written later can never be read | write `TOKEN_QUEUE_NODE_SIZE` tokens, read them all, read once more (null, and `read_head` becomes null), write one token, read again | move the read head only when the chunk has a successor, so that reading can resume after more writes | not executed; the crash follows from the code as written | TokenQueues.DrainFullChunk | TokenQueues.TokenQueue.ReadGuarded |
