# liblll template interpreter, modelled in Dafny

liblll renders one log line from a template. `lll_log` walks the template
one character at a time. On `%` it dispatches on the next character:

- `%%` writes a `%`.
- `%T` and `%T{fmt}` write a time stamp.
- `%d`, `%l`, `%F`, `%f` and `%L` write the domain, level, file name,
  function name and line.
- `%m` writes the message.
- Any other character after `%` is written after a `%`.

Every other character is copied. After the loop the message is appended
when no `%m` was met, and a newline always ends the line.
`lll_log_to_stream` and `lll_log_to_file` call `lll_log` only when the
level is at most the current level.

The model has three files:

- `output.dfy` (module `Output`): the stream. It is a class whose `tokens`
  field is what has been written so far, in order. A token is a character
  (`fputc`) or an opaque write made by code outside the logger: `Text` for
  `fputs` of a caller's string, `Int` for `fprintf("%d")` of a C `int`,
  `Time(format)` for `strftime` of the current local time, and `Message` for
  `vfprintf` of the message.
- `lll.dfy` (module `Lll`): the interpreter. A template is a `string`. A
  position past its end reads as the terminating NUL (`At`), so a NUL inside
  the sequence ends the template as it does in C. NULL strings are `None`.
  Each `char` of a template stands for one byte of the C string: text
  outside ASCII is given as its encoded bytes, one `char` per byte, so the
  63-character bound on a `%T{...}` format is a 63-byte bound.
  There are two layers:
  - Specification functions. `FindStop` and `TimeSpec` describe
    `lll_log_time`. `StepAt` is one iteration of the loop, `Scan` is the
    whole loop and `Render` is the whole line.
  - Imperative methods that follow the C code. `LogTime` copies the braced
    format into a 64-byte array (one `char` per byte) in a loop. `Log` is the cursor loop,
    with its `switch` in `Dispatch`. `LogToStream` and `LogToFile` are the
    level gate. Each method is proved to write exactly what the
    specification functions say.
- `lll_properties.dfy` (module `LllProperties`): what the template language
  means, proved of `Scan` and `Render`. There is one lemma per directive,
  each about a template that starts with that directive and continues with
  any text. `ScanShift` carries these results to every position of a
  template. Further lemmas cover literal copying, the terminator, the
  message and the newline.

Two behaviours of the C code are worth knowing:

- A template that ends in a lone `%` writes `%%`. The `'\0'` case steps the
  cursor back onto the `%` and falls into the default case
  (`TrailingPercent`).
- A rejected `%T{` writes nothing at all for `%T`. The scan resumes at the
  `{`, so the rest of the text is interpreted as ordinary template text
  (`TimeTooLong`, `TimeUnterminated`).

## Model

| member | source | states |
|---|---|---|
| Lll.FindStop | src/lll.c:40-44 | the stop search of the format copy: the first `}` or end of template at or after the start, with no stop at an earlier position; the loop's 63-byte bound is applied by TimeSpec, not here |
| Lll.TimeSpec | src/lll.c:38-62 | `lll_log_time` leaves the cursor on `start` or on the first `}` after `%T{`, with no `}` or end of template before it; when it returns the `}` the format is exactly the text between the braces; an accepted format has fewer than 64 bytes, room for its NUL |
| Lll.LogTime | src/lll.c:29-70 | the buffer-copying loop returns the cursor TimeSpec gives and writes one `Time` token, or nothing when the format is rejected |
| Lll.StepAt | src/lll.c:87-145 | every iteration of the loop moves the cursor strictly forward and never past the terminator, so the loop ends; it makes at most two writes |
| Lll.Scan | src/lll.c:86-146 | the directive loop from a cursor position to the terminator makes at most two writes per template byte it passes; what it writes and whether it met `%m` are pinned down by the lemmas of LllProperties |
| Lll.Render | src/lll.c:72-153 | the whole output of `lll_log`: it starts with everything the loop wrote and always ends with the newline |
| Output.Stream.Put | src/lll.c:139-143 | each write (these `fputc` calls, and likewise every `fputs`, `fprintf` and `vfprintf` of the logger) appends one token to the stream and keeps everything written before, in order |
| Lll.Dispatch | src/lll.c:88-141 | the `switch` on the character after `%` writes what one loop iteration writes and leaves the cursor one before the next iteration's start |
| Lll.Log | src/lll.c:72-153 | `lll_log` appends exactly `Render(template)` to the stream; a NULL template writes only the message and a newline |
| Lll.LogToStream | src/lll.c:155-167 | the line is written when `level <= current_level` and nothing is written otherwise |
| Lll.LogToFile | src/lll.c:169-190 | the line is appended to the file when the level passes and the file opens; otherwise the file is unchanged |
| LllProperties.ScanShift | src/lll.c:86-146 | the scan only looks forward: at a position of `p + q` inside `q` it writes what it writes at that position of `q` |
| LllProperties.StopsAtTerminator | src/lll.c:87-137 | nothing after the terminating NUL is read: the scan of `t + NUL + junk` equals the scan of `t` |
| LllProperties.LiteralsCopied | src/lll.c:142-144 | characters other than `%` are written one by one, in order, and the scan goes on with what follows |
| LllProperties.PlainTemplate | src/lll.c:142-152 | a template without `%` renders as its characters, then the message, then a newline |
| LllProperties.PercentDirective | src/lll.c:91-93 | `%%` writes a single `%` and the scan resumes after it |
| LllProperties.MessageDirective | src/lll.c:132-135 | `%m` writes the message at its position and sets the flag |
| LllProperties.DomainDirective | src/lll.c:101-105 | `%d` writes the domain when it is not NULL and nothing otherwise |
| LllProperties.LevelDirective | src/lll.c:108-110 | `%l` writes the level as an integer |
| LllProperties.FilenameDirective | src/lll.c:113-117 | `%F` writes the file name when it is not NULL and nothing otherwise |
| LllProperties.FunctionDirective | src/lll.c:120-124 | `%f` writes the function name when it is not NULL and nothing otherwise |
| LllProperties.LineDirective | src/lll.c:127-129 | `%L` writes the line as an integer |
| LllProperties.UnknownDirective | src/lll.c:138-140 | any other character after `%` is written after a `%`, and the scan resumes after that character |
| LllProperties.TrailingPercent | src/lll.c:136-152 | a `%` that ends the template writes `%%` and ends the scan, so literal text and a lone `%` render as the text, `%%`, the message and a newline |
| LllProperties.TimeDefault | src/lll.c:59-62 | `%T` not followed by `{` writes the time in format `%F %T` and only `T` is consumed |
| LllProperties.TimeBraced | src/lll.c:38-58 | `%T{f}` with `f` free of `}` and at most 63 bytes long writes the time in format `f`, and the scan resumes after the `}` |
| LllProperties.TimeTooLong | src/lll.c:51-56 | `%T{` followed by 64 bytes without `}` writes nothing for `%T`, and the `{` and the rest are scanned as template text |
| LllProperties.TimeUnterminated | src/lll.c:46-50 | `%T{` with no closing `}` writes nothing for `%T`, and the `{` and the rest are scanned as template text |
| LllProperties.FlagIffMessageWritten | src/lll.c:132-135 | the loop's `message_printed` flag is set if and only if the loop wrote the message |
| LllProperties.MessageAppendedIffNoDirective | src/lll.c:148-152 | the message is appended right before the newline, with nothing in between, if and only if the loop did not write it |
| LllProperties.MessageAlwaysWritten | src/lll.c:79-84 | every rendered line holds the message, whether or not the template is NULL |
| LllProperties.MessageOnceWithoutDirective | src/lll.c:148-152 | a template without `%m` renders the message exactly once, just before the newline |
| LllProperties.WrittenCharsFromTemplate | src/lll.c:139-143 | every character the loop writes is a `%` or a character of the template |
| LllProperties.SingleNewline | src/lll.c:152 | for a template without newlines, the last write is the newline `fputc` and no newline written by `fputc` comes before it; newlines inside the domain, file name, function name, message or time text are not counted |

## Left out

- `time`, `localtime` and `strftime` (src/lll.c:64-67) read the clock and format foreign data. They are the opaque token `Time(format)`. When the rendered time does not fit the 128-byte buffer, `strftime` returns 0 and leaves the buffer's contents indeterminate, and the `fputs` that follows then prints that buffer, which is undefined behaviour; the model does not capture this case.
- `vfprintf` of the message is the opaque token `Message`. With two `%m` directives the C code reuses the same `va_list`, which is undefined behaviour. The model writes `Message` twice and gives it no further meaning.
- `fprintf("%d")` of the level and line is the opaque token `Int`. The decimal digits are not modelled.
- `fputs` of the domain, file name and function name is the opaque token `Text`. These strings are written as given.
- `fopen` and `fclose` are I/O. `LogToFile` takes the file as a stream and whether `fopen` succeeds as the boolean `opens`.
- The diagnostics written to `stderr` (src/lll.c:47-55, 185-187) are left out. Only their effect on the log stream is kept: nothing is written.
- t/test1.c and include/lll.h describe a different API: `lll_fprint`, `$N` parameters, `?N` conditionals and `%p`/`%P`, with other parameter orders. src/lll.c does not implement it, and it is not part of this model.
- t/fork.c runs the logger from several processes. It is concurrency and process plumbing, and it is not part of this model.
