/** What the template language of `lll_log` means, stated directive by
    directive and proved of the interpreter in module Lll. The directive
    lemmas describe a template that starts with one directive and goes on
    with any text `q`; with ScanShift they describe every position. */
module LllProperties {
  import opened Output
  import opened Lll

  /** The characters of s, each written with fputc. */
  function Chars(s: string): (r: seq<Token>)
    ensures |r| == |s|
    ensures forall k :: 0 <= k < |s| ==> r[k] == Char(s[k])
  {
    if s == [] then [] else [Char(s[0])] + Chars(s[1..])
  }

  /** Text that holds neither a directive nor the end of the template. */
  predicate Literal(p: string)
  {
    forall k :: 0 <= k < |p| ==> p[k] != '%' && p[k] != NUL
  }

  // ---------------------------------------------------------------------
  // The interpreter only looks forward from its cursor: what it does at a
  // position of p + q inside q is what it does at that position of q.

  lemma {:induction false} FindStopShift(p: string, q: string, from: nat)
    requires from <= |q|
    ensures FindStop(p + q, |p| + from) == |p| + FindStop(q, from)
    decreases |q| - from
  {
    assert At(p + q, |p| + from) == At(q, from);
    if !IsStop(At(q, from)) {
      FindStopShift(p, q, from + 1);
    }
  }

  lemma TimeSpecShift(p: string, q: string, s: nat)
    requires s < |q|
    ensures TimeSpec(p + q, |p| + s)
         == TimeParse(TimeSpec(q, s).resume + |p|, TimeSpec(q, s).format)
  {
    assert At(p + q, |p| + s + 1) == At(q, s + 1);
    if At(q, s + 1) == '{' {
      FindStopShift(p, q, s + 2);
      var k := FindStop(q, s + 2);
      assert At(p + q, |p| + k) == At(q, k);
      assert (p + q)[|p| + s + 2..|p| + k] == q[s + 2..k];
    }
  }

  lemma StepShift(p: string, q: string, i: nat, o: Origin)
    requires At(q, i) != NUL
    ensures StepAt(p + q, |p| + i, o)
         == Step(StepAt(q, i, o).tokens, StepAt(q, i, o).next + |p|, StepAt(q, i, o).message)
  {
    assert At(p + q, |p| + i) == At(q, i);
    assert At(p + q, |p| + i + 1) == At(q, i + 1);
    if q[i] == '%' && At(q, i + 1) == 'T' {
      TimeSpecShift(p, q, i + 1);
    }
  }

  lemma {:induction false} ScanShift(p: string, q: string, i: nat, o: Origin)
    requires i <= |q|
    ensures Scan(p + q, |p| + i, o) == Scan(q, i, o)
    decreases |q| - i
  {
    assert At(p + q, |p| + i) == At(q, i);
    if At(q, i) != NUL {
      StepShift(p, q, i, o);
      ScanShift(p, q, StepAt(q, i, o).next, o);
    }
  }

  // ---------------------------------------------------------------------
  // The scan stops at the terminating NUL and never reads past it.

  lemma {:induction false} FindStopCut(t: string, junk: string, from: nat)
    requires from <= |t|
    ensures FindStop(t + [NUL] + junk, from) == FindStop(t, from)
    decreases |t| - from
  {
    assert At(t + [NUL] + junk, from) == At(t, from);
    if !IsStop(At(t, from)) {
      FindStopCut(t, junk, from + 1);
    }
  }

  lemma StepCut(t: string, junk: string, i: nat, o: Origin)
    requires At(t, i) != NUL
    ensures StepAt(t + [NUL] + junk, i, o) == StepAt(t, i, o)
  {
    var u := t + [NUL] + junk;
    assert At(u, i) == At(t, i);
    assert At(u, i + 1) == At(t, i + 1);
    if t[i] == '%' && At(t, i + 1) == 'T' && At(t, i + 2) == '{' {
      assert At(u, i + 2) == At(t, i + 2);
      FindStopCut(t, junk, i + 3);
      var k := FindStop(t, i + 3);
      assert At(u, k) == At(t, k);
      assert u[i + 3..k] == t[i + 3..k];
    }
  }

  /** Anything after the terminating NUL is never read. */
  lemma {:induction false} StopsAtTerminator(t: string, junk: string, i: nat, o: Origin)
    requires i <= |t|
    ensures Scan(t + [NUL] + junk, i, o) == Scan(t, i, o)
    decreases |t| - i
  {
    assert At(t + [NUL] + junk, i) == At(t, i);
    if At(t, i) != NUL {
      StepCut(t, junk, i, o);
      StopsAtTerminator(t, junk, StepAt(t, i, o).next, o);
    }
  }

  // ---------------------------------------------------------------------
  // Literal text.

  /** Characters other than `%` are copied to the stream one by one, in
      order, whatever follows them. */
  lemma {:induction false} LiteralsCopied(p: string, q: string, o: Origin)
    requires Literal(p)
    ensures Scan(p + q, 0, o) == Scanned(Chars(p) + Scan(q, 0, o).out, Scan(q, 0, o).sawMessage)
    decreases |p|
  {
    if p == [] {
      assert p + q == q;
    } else {
      var t := p + q;
      var rest := p[1..] + q;
      assert t == [p[0]] + rest;
      assert At(t, 0) == p[0];
      assert StepAt(t, 0, o) == Step([Char(p[0])], 1, false);
      ScanShift([p[0]], rest, 0, o);
      assert Literal(p[1..]);
      LiteralsCopied(p[1..], q, o);
    }
  }

  /** A template without directives is copied, followed by the message and
      a newline. */
  lemma PlainTemplate(t: string, o: Origin)
    requires Literal(t)
    ensures Render(Some(t), o) == Chars(t) + [Message, Char('\n')]
  {
    LiteralsCopied(t, [], o);
    assert t + [] == t;
  }

  // ---------------------------------------------------------------------
  // One lemma per directive.

  /** `%%` writes one `%` and the scan resumes after it. */
  lemma PercentDirective(q: string, o: Origin)
    ensures Scan("%%" + q, 0, o) == Scanned([Char('%')] + Scan(q, 0, o).out, Scan(q, 0, o).sawMessage)
  {
    var t := "%%" + q;
    assert At(t, 0) == '%' && At(t, 1) == '%';
    ScanShift("%%", q, 0, o);
  }

  /** `%m` writes the message in place and is remembered. */
  lemma MessageDirective(q: string, o: Origin)
    ensures Scan("%m" + q, 0, o) == Scanned([Message] + Scan(q, 0, o).out, true)
  {
    var t := "%m" + q;
    assert At(t, 0) == '%' && At(t, 1) == 'm';
    ScanShift("%m", q, 0, o);
  }

  /** `%d` writes the domain when it is not NULL, nothing otherwise. */
  lemma DomainDirective(q: string, o: Origin)
    ensures Scan("%d" + q, 0, o)
         == Scanned(TextIfPresent(o.domain) + Scan(q, 0, o).out, Scan(q, 0, o).sawMessage)
  {
    assert At("%d" + q, 0) == '%' && At("%d" + q, 1) == 'd';
    ScanShift("%d", q, 0, o);
  }

  /** `%l` writes the level as a decimal integer. */
  lemma LevelDirective(q: string, o: Origin)
    ensures Scan("%l" + q, 0, o) == Scanned([Int(o.level)] + Scan(q, 0, o).out, Scan(q, 0, o).sawMessage)
  {
    assert At("%l" + q, 0) == '%' && At("%l" + q, 1) == 'l';
    ScanShift("%l", q, 0, o);
  }

  /** `%F` writes the file name when it is not NULL, nothing otherwise. */
  lemma FilenameDirective(q: string, o: Origin)
    ensures Scan("%F" + q, 0, o)
         == Scanned(TextIfPresent(o.filename) + Scan(q, 0, o).out, Scan(q, 0, o).sawMessage)
  {
    assert At("%F" + q, 0) == '%' && At("%F" + q, 1) == 'F';
    ScanShift("%F", q, 0, o);
  }

  /** `%f` writes the function name when it is not NULL, nothing otherwise. */
  lemma FunctionDirective(q: string, o: Origin)
    ensures Scan("%f" + q, 0, o)
         == Scanned(TextIfPresent(o.functionName) + Scan(q, 0, o).out, Scan(q, 0, o).sawMessage)
  {
    assert At("%f" + q, 0) == '%' && At("%f" + q, 1) == 'f';
    ScanShift("%f", q, 0, o);
  }

  /** `%L` writes the line as a decimal integer. */
  lemma LineDirective(q: string, o: Origin)
    ensures Scan("%L" + q, 0, o) == Scanned([Int(o.line)] + Scan(q, 0, o).out, Scan(q, 0, o).sawMessage)
  {
    assert At("%L" + q, 0) == '%' && At("%L" + q, 1) == 'L';
    ScanShift("%L", q, 0, o);
  }

  /** Any other character after `%` is written after a `%`, and the scan
      resumes after that character. */
  lemma UnknownDirective(x: char, q: string, o: Origin)
    requires x != NUL && x !in "%TdlFfLm"
    ensures Scan(['%', x] + q, 0, o) == Scanned([Char('%'), Char(x)] + Scan(q, 0, o).out, Scan(q, 0, o).sawMessage)
  {
    var t := ['%', x] + q;
    assert At(t, 0) == '%' && At(t, 1) == x;
    ScanShift(['%', x], q, 0, o);
  }

  /** A `%` that ends the template is written twice and ends the scan: a
      line of literal text and a lone `%` renders as the text, `%%`, the
      message and a newline. */
  lemma TrailingPercent(p: string, o: Origin)
    requires Literal(p)
    ensures Scan(p + "%", |p|, o) == Scanned([Char('%'), Char('%')], false)
    ensures Render(Some(p + "%"), o) == Chars(p) + [Char('%'), Char('%'), Message, Char('\n')]
  {
    var t := p + "%";
    assert At(t, |p|) == '%' && At(t, |p| + 1) == NUL;
    assert StepAt(t, |p|, o) == Step([Char('%'), Char('%')], |p| + 1, false);
    assert Scan("%", 0, o) == Scanned([Char('%'), Char('%')], false);
    LiteralsCopied(p, "%", o);
  }

  /** `%T` not followed by `{` writes the time in the default format and
      the scan resumes right after the `T`. */
  lemma TimeDefault(q: string, o: Origin)
    requires At(q, 0) != '{'
    ensures Scan("%T" + q, 0, o) == Scanned([Time("%F %T")] + Scan(q, 0, o).out, Scan(q, 0, o).sawMessage)
  {
    var t := "%T" + q;
    assert At(t, 0) == '%' && At(t, 1) == 'T' && At(t, 2) == At(q, 0);
    ScanShift("%T", q, 0, o);
  }

  /** `%T{f}` with f closed by `}` and at most 63 characters long writes
      the time in format f, and the scan resumes after the `}`. */
  lemma TimeBraced(f: string, q: string, o: Origin)
    requires |f| < TIME_FMT_BUFFER_SIZE
    requires forall k :: 0 <= k < |f| ==> !IsStop(f[k])
    ensures Scan("%T{" + f + "}" + q, 0, o) == Scanned([Time(f)] + Scan(q, 0, o).out, Scan(q, 0, o).sawMessage)
  {
    var p := "%T{" + f + "}";
    var t := p + q;
    assert At(t, 0) == '%' && At(t, 1) == 'T' && At(t, 2) == '{';
    forall k | 3 <= k < 3 + |f| ensures !IsStop(At(t, k)) {
      assert At(t, k) == f[k - 3];
    }
    assert At(t, 3 + |f|) == '}';
    assert FindStop(t, 3) == 3 + |f|;
    assert t[3..3 + |f|] == f;
    ScanShift(p, q, 0, o);
  }

  /** `%T{` followed by 64 characters none of which is `}` writes nothing
      for `%T`: the scan resumes at the `{`, which is copied. */
  lemma TimeTooLong(f: string, o: Origin)
    requires |f| >= TIME_FMT_BUFFER_SIZE
    requires forall k :: 0 <= k < TIME_FMT_BUFFER_SIZE ==> !IsStop(f[k])
    ensures Scan("%T{" + f, 0, o) == Scanned([Char('{')] + Scan(f, 0, o).out, Scan(f, 0, o).sawMessage)
  {
    var t := "%T{" + f;
    assert At(t, 0) == '%' && At(t, 1) == 'T' && At(t, 2) == '{';
    assert FindStop(t, 3) >= 3 + TIME_FMT_BUFFER_SIZE;
    assert TimeSpec(t, 1) == TimeParse(1, None);
    ScanShift("%T{", f, 0, o);
  }

  /** `%T{` never closed by `}` writes nothing for `%T`: the scan resumes at
      the `{`, which is copied. */
  lemma TimeUnterminated(f: string, o: Origin)
    requires forall k :: 0 <= k < |f| ==> !IsStop(f[k])
    ensures Scan("%T{" + f, 0, o) == Scanned([Char('{')] + Scan(f, 0, o).out, Scan(f, 0, o).sawMessage)
  {
    var t := "%T{" + f;
    assert At(t, 0) == '%' && At(t, 1) == 'T' && At(t, 2) == '{';
    forall k | 3 <= k < |t| ensures !IsStop(At(t, k)) {
      assert At(t, k) == f[k - 3];
    }
    assert FindStop(t, 3) == |t|;
    ScanShift("%T{", f, 0, o);
  }

  // ---------------------------------------------------------------------
  // The message.

  /** The loop remembers a `%m` exactly when it has written the message. */
  lemma {:induction false} FlagIffMessageWritten(t: string, i: nat, o: Origin)
    requires i <= |t|
    ensures Scan(t, i, o).sawMessage <==> Message in Scan(t, i, o).out
    decreases |t| - i
  {
    if At(t, i) != NUL {
      var s := StepAt(t, i, o);
      assert s.message <==> Message in s.tokens;
      FlagIffMessageWritten(t, s.next, o);
    }
  }

  /** The message is appended after the loop, with nothing in between, if
      and only if the loop did not write it. */
  lemma MessageAppendedIffNoDirective(t: string, o: Origin)
    ensures var s := Scan(t, 0, o);
      Message !in s.out <==> Render(Some(t), o) == s.out + [Message, Char('\n')]
  {
    FlagIffMessageWritten(t, 0, o);
  }

  /** Every rendered line holds the message. */
  lemma MessageAlwaysWritten(template: Option<string>, o: Origin)
    ensures Message in Render(template, o)
  {
    if template.Some? {
      FlagIffMessageWritten(template.value, 0, o);
    }
  }

  /** Without `%m` in the template the message is written exactly once,
      just before the newline. */
  lemma {:induction false} NoDirectiveNoMessage(t: string, i: nat, o: Origin)
    requires i <= |t|
    requires forall k :: 0 <= k < |t| ==> !(t[k] == '%' && At(t, k + 1) == 'm')
    ensures !Scan(t, i, o).sawMessage
    decreases |t| - i
  {
    if At(t, i) != NUL {
      NoDirectiveNoMessage(t, StepAt(t, i, o).next, o);
    }
  }

  lemma MessageOnceWithoutDirective(t: string, o: Origin)
    requires forall k :: 0 <= k < |t| ==> !(t[k] == '%' && At(t, k + 1) == 'm')
    ensures var s := Scan(t, 0, o);
      Render(Some(t), o) == s.out + [Message, Char('\n')] && Message !in s.out
  {
    NoDirectiveNoMessage(t, 0, o);
    FlagIffMessageWritten(t, 0, o);
  }

  // ---------------------------------------------------------------------
  // The newline.

  /** Every character the loop writes is a `%` or comes from the template. */
  lemma {:induction false} WrittenCharsFromTemplate(t: string, i: nat, o: Origin, c: char)
    requires i <= |t|
    requires Char(c) in Scan(t, i, o).out
    ensures c == '%' || exists k :: i <= k < |t| && t[k] == c
    decreases |t| - i
  {
    var s := StepAt(t, i, o);
    if Char(c) in s.tokens {
      assert c == '%' || c == t[i] || c == t[i + 1];
    } else {
      WrittenCharsFromTemplate(t, s.next, o, c);
    }
  }

  /** A template without newlines renders to a line ending in exactly one
      newline, the one appended after the loop. */
  lemma SingleNewline(t: string, o: Origin)
    requires forall k :: 0 <= k < |t| ==> t[k] != '\n'
    ensures var r := Render(Some(t), o);
      |r| > 0 && r[|r| - 1] == Char('\n') && Char('\n') !in r[..|r| - 1]
  {
    var s := Scan(t, 0, o);
    var r := Render(Some(t), o);
    var body := s.out + (if s.sawMessage then [] else [Message]);
    assert r == body + [Char('\n')];
    assert r[..|r| - 1] == body;
    if Char('\n') in s.out {
      WrittenCharsFromTemplate(t, 0, o, '\n');
    }
  }
}
