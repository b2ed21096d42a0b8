/** The template interpreter of liblll (src/lll.c): one log line is rendered
    by walking a template string with a cursor and dispatching on `%`
    directives. A template is a `string` whose every `char` stands for one
    byte of the C string (text outside ASCII is given as its encoded bytes);
    a position past its end reads as the terminating NUL of the C string, so
    a NUL inside the sequence ends the template exactly as it does in C. */
module Lll {
  import opened Output

  datatype Option<T> = None | Some(value: T)

  const NUL: char := '\0'

  /** Size in bytes of the buffer `lll_log_time` copies a `%T{...}` format
      into, terminating NUL included. */
  const TIME_FMT_BUFFER_SIZE: nat := 64

  /** The format `%T` uses when no braces follow: YYYY-MM-DD HH:MM:SS. */
  const DEFAULT_TIME_FORMAT: string := "%F %T"

  /** What the caller of `lll_log` passes besides the template and the
      message: the domain, level, file name, function name and line. A C
      string that may be NULL is an Option. */
  datatype Origin = Origin(
    domain: Option<string>,
    level: int32,
    filename: Option<string>,
    functionName: Option<string>,
    line: int32)

  /** The character the C code reads at position i of the template. */
  function At(t: string, i: nat): char
  {
    if i < |t| then t[i] else NUL
  }

  /** The characters that end the copy of a `%T{...}` format. */
  predicate IsStop(c: char)
  {
    c == '}' || c == NUL
  }

  /** The first position at or after `from` that holds `}` or the end of the
      template. */
  function FindStop(t: string, from: nat): (r: nat)
    requires from <= |t|
    ensures from <= r <= |t| && IsStop(At(t, r))
    ensures forall k :: from <= k < r ==> !IsStop(At(t, k))
    decreases |t| - from
  {
    if IsStop(At(t, from)) then from else FindStop(t, from + 1)
  }

  /** Outcome of `lll_log_time` called with the cursor on the `T` of `%T`:
      where the cursor is left, and the format written with strftime, or
      None when the directive is rejected and nothing is written. */
  datatype TimeParse = TimeParse(resume: nat, format: Option<string>)

  /** What `lll_log_time` does, stated through the first `}` or end of
      template after `%T{`: the braced format is accepted when it is closed
      by `}` and fits the 64-byte buffer with its NUL. */
  function TimeSpec(t: string, start: nat): (r: TimeParse)
    requires start < |t|
    ensures start <= r.resume < |t|
    ensures r.resume == start || (start + 2 <= r.resume && t[r.resume] == '}' && r.format == Some(t[start + 2..r.resume]))
    ensures r.format.Some? ==> |r.format.value| < TIME_FMT_BUFFER_SIZE
    ensures r.resume != start ==> forall k :: start + 2 <= k < r.resume ==> !IsStop(At(t, k))
  {
    if At(t, start + 1) != '{' then
      TimeParse(start, Some(DEFAULT_TIME_FORMAT))
    else
      var k := FindStop(t, start + 2);
      if At(t, k) == '}' && k - (start + 2) < TIME_FMT_BUFFER_SIZE then
        TimeParse(k, Some(t[start + 2..k]))
      else
        TimeParse(start, None)
  }

  /** The tokens `lll_log_time` writes for a given outcome. */
  function TimeTokens(p: TimeParse): seq<Token>
  {
    if p.format.Some? then [Time(p.format.value)] else []
  }

  /** `fputs` of a string that is written only when it is not NULL. */
  function TextIfPresent(s: Option<string>): seq<Token>
  {
    if s.Some? then [Text(s.value)] else []
  }

  /** One iteration of the directive loop of `lll_log` at a position that
      is not the end of the template: what it writes, where the cursor goes
      next and whether it was a `%m` directive. */
  datatype Step = Step(tokens: seq<Token>, next: nat, message: bool)

  /** The body of the directive loop of `lll_log`, cursor on position i. */
  function StepAt(t: string, i: nat, o: Origin): (r: Step)
    requires At(t, i) != NUL
    ensures i < r.next <= |t|
    ensures |r.tokens| <= 2
  {
    if t[i] != '%' then Step([Char(t[i])], i + 1, false)
    else
      match At(t, i + 1)
      case '%' => Step([Char('%')], i + 2, false)
      case 'T' =>
        var p := TimeSpec(t, i + 1);
        Step(TimeTokens(p), p.resume + 1, false)
      case 'd' => Step(TextIfPresent(o.domain), i + 2, false)
      case 'l' => Step([Int(o.level)], i + 2, false)
      case 'F' => Step(TextIfPresent(o.filename), i + 2, false)
      case 'f' => Step(TextIfPresent(o.functionName), i + 2, false)
      case 'L' => Step([Int(o.line)], i + 2, false)
      case 'm' => Step([Message], i + 2, true)
      case '\0' => Step([Char('%'), Char('%')], i + 1, false)
      case _ => Step([Char('%'), Char(At(t, i + 1))], i + 2, false)
  }

  /** What the directive loop of `lll_log` writes from some cursor position
      to the end of the template, and whether it met a `%m` directive. */
  datatype Scanned = Scanned(out: seq<Token>, sawMessage: bool)

  /** The directive loop of `lll_log`, from cursor position i. It makes at
      most two writes per template character it passes. */
  function Scan(t: string, i: nat, o: Origin): (s: Scanned)
    requires i <= |t|
    ensures |s.out| <= 2 * (|t| - i)
    decreases |t| - i
  {
    if At(t, i) == NUL then Scanned([], false)
    else
      var s := StepAt(t, i, o);
      var rest := Scan(t, s.next, o);
      Scanned(s.tokens + rest.out, s.message || rest.sawMessage)
  }

  /** Everything `lll_log` writes: the message and a newline for a NULL
      template; otherwise the directive loop's output, the message when no
      `%m` was met, and a newline. */
  function Render(template: Option<string>, o: Origin): (r: seq<Token>)
    ensures |r| > 0 && r[|r| - 1] == Char('\n')
    ensures template.Some? ==> Scan(template.value, 0, o).out <= r
  {
    match template
    case None => [Message, Char('\n')]
    case Some(t) =>
      var s := Scan(t, 0, o);
      s.out + (if s.sawMessage then [] else [Message]) + [Char('\n')]
  }

  /** `lll_log_time`: called with `start` on the `T` of `%T`, it copies a
      braced format into a 64-byte buffer, writes the time and returns
      the position of the closing `}`; without braces it uses the default
      format and returns `start`; an unterminated or over-long format makes
      it write nothing and return `start`. */
  method LogTime(stream: Stream, t: string, start: nat) returns (next: nat)
    requires start < |t|
    modifies stream
    ensures next == TimeSpec(t, start).resume
    ensures stream.tokens == old(stream.tokens) + TimeTokens(TimeSpec(t, start))
  {
    var fmt := new char[TIME_FMT_BUFFER_SIZE];
    var i := 0;
    var p := start;
    if At(t, p + 1) == '{' {
      p := p + 2;
      while i + 1 < TIME_FMT_BUFFER_SIZE && At(t, p) != '}' && At(t, p) != NUL
        invariant i < TIME_FMT_BUFFER_SIZE
        invariant p == start + 2 + i <= |t|
        invariant fmt[..i] == t[start + 2..p]
        invariant forall k :: start + 2 <= k < p ==> !IsStop(At(t, k))
        decreases |t| - p
        modifies fmt
      {
        fmt[i] := t[p];
        i := i + 1;
        p := p + 1;
      }
      assert IsStop(At(t, p)) ==> FindStop(t, start + 2) == p;
      if At(t, p) == NUL {
        // unterminated format: reported on stderr, nothing written
        assert TimeSpec(t, start).format.None?;
        assert TimeTokens(TimeSpec(t, start)) == [];
        return start;
      } else if At(t, p) != '}' {
        // format longer than the buffer: reported on stderr, nothing written
        return start;
      }
      fmt[i] := NUL;
    } else {
      fmt[0], fmt[1], fmt[2], fmt[3], fmt[4], fmt[5] := '%', 'F', ' ', '%', 'T', NUL;
      i := 5;
      assert fmt[..i] == DEFAULT_TIME_FORMAT;
    }
    stream.Put(Time(fmt[..i]));
    return p;
  }

  /** The `switch` of `lll_log` on the character after a `%`: `c` is the
      position of that character. It returns where the cursor stands before
      the loop's `c++` and whether the directive was `%m`. */
  method Dispatch(stream: Stream, t: string, c: nat, o: Origin) returns (cursor: nat, isMessage: bool)
    requires 0 < c <= |t| && t[c - 1] == '%'
    modifies stream
    ensures var s := StepAt(t, c - 1, o);
      stream.tokens == old(stream.tokens) + s.tokens && cursor + 1 == s.next && isMessage == s.message
  {
    cursor, isMessage := c, false;
    match At(t, c)
    case '%' =>
      stream.Put(Char('%'));
    case 'T' =>
      cursor := LogTime(stream, t, c);
    case 'd' =>
      if o.domain.Some? { stream.Put(Text(o.domain.value)); }
    case 'l' =>
      stream.Put(Int(o.level));
    case 'F' =>
      if o.filename.Some? { stream.Put(Text(o.filename.value)); }
    case 'f' =>
      if o.functionName.Some? { stream.Put(Text(o.functionName.value)); }
    case 'L' =>
      stream.Put(Int(o.line));
    case 'm' =>
      stream.Put(Message);
      isMessage := true;
    case '\0' =>
      // a lone `%` at the end: step back onto it and print it twice
      cursor := c - 1;
      stream.Put(Char('%'));
      stream.Put(Char(At(t, cursor)));
    case _ =>
      stream.Put(Char('%'));
      stream.Put(Char(At(t, c)));
  }

  /** `lll_log`: renders one log line for `template` onto `stream`. */
  method Log(stream: Stream, template: Option<string>, o: Origin)
    modifies stream
    ensures stream.tokens == old(stream.tokens) + Render(template, o)
    // the NULL-template case of Render, spelled out for the reader
    ensures template.None? ==> stream.tokens == old(stream.tokens) + [Message, Char('\n')]
  {
    if template.None? {
      stream.Put(Message);
      stream.Put(Char('\n'));
      return;
    }
    var t := template.value;
    var i := 0;
    var messagePrinted := false;
    ghost var whole := Scan(t, 0, o);
    ghost var rest := whole;
    while At(t, i) != NUL
      invariant i <= |t| && rest == Scan(t, i, o)
      invariant old(stream.tokens) + whole.out == stream.tokens + rest.out
      invariant whole.sawMessage == (messagePrinted || rest.sawMessage)
      decreases |t| - i
    {
      ghost var step := StepAt(t, i, o);
      ghost var after := Scan(t, step.next, o);
      ghost var before := stream.tokens;
      assert rest == Scanned(step.tokens + after.out, step.message || after.sawMessage);
      if t[i] == '%' {
        var isMessage;
        i, isMessage := Dispatch(stream, t, i + 1, o);
        messagePrinted := messagePrinted || isMessage;
      } else {
        stream.Put(Char(t[i]));
      }
      i := i + 1;
      assert stream.tokens == before + step.tokens;
      assert before + rest.out == stream.tokens + after.out;
      rest := after;
    }
    assert Scan(t, i, o) == Scanned([], false);
    assert stream.tokens == old(stream.tokens) + whole.out;
    assert Render(template, o) == whole.out + (if whole.sawMessage then [] else [Message]) + [Char('\n')];
    if !messagePrinted {
      stream.Put(Message);
    }
    stream.Put(Char('\n'));
  }

  /** `lll_log_to_stream`: logs only when the level passes the gate. */
  method LogToStream(stream: Stream, template: Option<string>, o: Origin, currentLevel: int32)
    modifies stream
    ensures o.level <= currentLevel ==> stream.tokens == old(stream.tokens) + Render(template, o)
    ensures o.level > currentLevel ==> stream.tokens == old(stream.tokens)
  {
    if o.level <= currentLevel {
      Log(stream, template, o);
    }
  }

  /** `lll_log_to_file`: `file` is the file at the given path and `opens`
      whether opening it in append mode succeeds. The line is appended only
      when the level passes the gate and the file could be opened. */
  method LogToFile(file: Stream, opens: bool, template: Option<string>, o: Origin, currentLevel: int32)
    modifies file
    ensures o.level <= currentLevel && opens ==> file.tokens == old(file.tokens) + Render(template, o)
    ensures o.level > currentLevel || !opens ==> file.tokens == old(file.tokens)
  {
    if o.level <= currentLevel {
      if opens {
        Log(file, template, o);
      }
      // otherwise the failure is reported on stderr and nothing is written
    }
  }
}
