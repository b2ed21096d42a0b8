/** The destination of a log line: a C `FILE *` opened for writing or
    appending, seen as the sequence of things written to it. */
module Output {

  /** The C `int` the logger receives for the level and the line number. */
  newtype int32 = x: int | -0x8000_0000 <= x < 0x8000_0000

  /** One write to the stream. Characters are written one by one (`fputc`);
      the rest stand for writes whose text is produced by code outside the
      logger (`fputs` of a caller's string, `fprintf("%d")`, `strftime`,
      `vfprintf` of the message). */
  datatype Token =
    | Char(c: char)          // fputc(c)
    | Text(s: string)        // fputs(s) of a string the caller passed
    | Int(n: int32)          // fprintf(stream, "%d", n)
    | Time(format: string)   // strftime of the current local time with this format
    | Message                // vfprintf of the message format and its arguments

  /** An append-only stream. */
  class Stream {
    var tokens: seq<Token>

    constructor ()
      ensures tokens == []
    {
      tokens := [];
    }

    /** One write: everything written before is kept, in order. */
    method Put(t: Token)
      modifies this
      ensures tokens == old(tokens) + [t]
    {
      tokens := tokens + [t];
    }
  }
}
