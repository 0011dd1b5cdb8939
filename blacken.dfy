/**
 * The orchestrator: every classified fragment other than plain text has its
 * code extracted, formatted by the external formatter with a line length
 * shrunk by the fragment's indentation and prompt, and reformatted back; the
 * formatter's errors are re-raised with line numbers counted in the document
 * instead of the fragment.
 *
 * The formatter (`black.format_str`) is a parameter: a function from code and
 * line length to formatted code or one of the two errors it raises. So are
 * the extraction and reformatting functions, which `blacken` reaches through
 * the facade.
 */
module Blacken {
  import opened Common
  import opened Text

  // ---------------------------------------------------------------- messages

  /** The four parts of an error message `"msg: L:C: line"`. */
  datatype ErrorMessage = ErrorMessage(message: string, line: nat, column: nat, faultyLine: string)

  /** What the message pattern can capture: a message without colons and a one-line faulty line. */
  predicate WellFormed(m: ErrorMessage)
  {
    m.message != "" && ':' !in m.message && m.faultyLine != "" && '\n' !in m.faultyLine
  }

  /** The message text with the line and column written in decimal. */
  function FormatMessage(m: ErrorMessage): string
  {
    m.message + ": " + NatToString(m.line) + ":" + NatToString(m.column) + ": " + m.faultyLine
  }

  /** The length of the run of decimal digits `s` starts with (`\d+`, greedy). */
  function DigitRun(s: string): (n: nat)
    ensures n <= |s| && AllDigits(s[..n]) && (n == |s| || !IsDigit(s[n]))
  {
    if s != [] && IsDigit(s[0]) then
      var n := 1 + DigitRun(s[1..]);
      assert s[..n] == [s[0]] + s[1..][..n - 1];
      n
    else 0
  }

  function Invalid(s: string): Error
  {
    ValueError("invalid error message: " + s)
  }

  /** `([^:]+): `: the message runs up to the first colon, which a space follows. */
  function MessagePart(s: string): (i: Option<nat>)
    ensures i.Some? ==> 1 <= i.value && i.value + 2 <= |s| && s[i.value..i.value + 2] == ": " && ':' !in s[..i.value]
  {
    var i := Find(s, ":");
    if i < 1 || !OccursAt(s, ": ", i) then None
    else
      assert forall j :: 0 <= j < i ==> s[j] != ':' by {
        forall j | 0 <= j < i ensures s[j] != ':' {
          assert !OccursAt(s, ":", j) && s[j..j + 1] == [s[j]];
        }
      }
      Some(i)
  }

  /** `(\d+)` followed by `sep`: the length of the digit run, when `sep` comes right after it. */
  function NumberPart(t: string, sep: string): (a: Option<nat>)
    ensures a.Some? ==> 1 <= a.value && OccursAt(t, sep, a.value) && AllDigits(t[..a.value])
  {
    var a := DigitRun(t);
    if a >= 1 && OccursAt(t, sep, a) then Some(a) else None
  }

  /** `(.+)$`: a non-empty line, with one final newline allowed after it. */
  function FaultyPart(f: string): (r: Option<string>)
    ensures r.Some? ==> r.value != "" && '\n' !in r.value
  {
    var faulty := if f != [] && f[|f| - 1] == '\n' then f[..|f| - 1] else f;
    if faulty == [] || '\n' in faulty then None else Some(faulty)
  }

  /** `(\d+): (.+)$`: the column and the faulty line. */
  function ParseColumn(u: string): (r: Option<(nat, string)>)
    ensures r.Some? ==> r.value.1 != "" && '\n' !in r.value.1
  {
    match NumberPart(u, ": ")
    case None => None
    case Some(b) =>
      match FaultyPart(u[b + 2..])
      case None => None
      case Some(faulty) => Some((DigitsValue(u[..b]), faulty))
  }

  /** `(\d+):(\d+): (.+)$`: the line, the column and the faulty line. */
  function ParsePosition(t: string): (r: Option<(nat, nat, string)>)
    ensures r.Some? ==> r.value.2 != "" && '\n' !in r.value.2
  {
    match NumberPart(t, ":")
    case None => None
    case Some(a) =>
      match ParseColumn(t[a + 1..])
      case None => None
      case Some((column, faulty)) => Some((DigitsValue(t[..a]), column, faulty))
  }

  /**
   * `parse_message`: matches `^([^:]+): (\d+):(\d+): (.+)$`. The message runs
   * up to the first colon, the numbers are digit runs, and the faulty line is
   * the rest, which `$` allows to be followed by one final newline; anything
   * else raises `ValueError`.
   */
  function ParseMessage(s: string): (r: Result<ErrorMessage>)
    ensures r.Err? ==> r.error == Invalid(s)
    ensures r.Ok? ==> WellFormed(r.value)
  {
    match MessagePart(s)
    case None => Err(Invalid(s))
    case Some(i) =>
      match ParsePosition(s[i + 2..])
      case None => Err(Invalid(s))
      case Some((line, column, faulty)) => Ok(ErrorMessage(s[..i], line, column, faulty))
  }

  /** A digit run followed by something that is not a digit is exactly as long as the run. */
  lemma DigitRunOf(x: string, y: string)
    requires AllDigits(x) && (y == [] || !IsDigit(y[0]))
    ensures DigitRun(x + y) == |x|
    decreases |x|
  {
    if x != [] {
      assert (x + y)[1..] == x[1..] + y;
      DigitRunOf(x[1..], y);
    } else {
      assert x + y == y;
    }
  }

  lemma MessagePartOf(msg: string, t: string)
    requires msg != "" && ':' !in msg
    ensures MessagePart(msg + (": " + t)) == Some(|msg|)
    ensures (msg + (": " + t))[..|msg|] == msg && (msg + (": " + t))[|msg| + 2..] == t
  {
    var s := msg + (": " + t);
    assert OccursAt(s, ":", |msg|) && OccursAt(s, ": ", |msg|);
    forall j | 0 <= j < |msg| ensures !OccursAt(s, ":", j) {
      assert s[j..j + 1][0] == msg[j];
    }
  }

  lemma NumberPartOf(L: string, sep: string, rest: string)
    requires L != "" && AllDigits(L) && sep != "" && !IsDigit(sep[0])
    ensures NumberPart(L + (sep + rest), sep) == Some(|L|)
    ensures (L + (sep + rest))[..|L|] == L && (L + (sep + rest))[|L| + |sep|..] == rest
  {
    var s := L + (sep + rest);
    DigitRunOf(L, sep + rest);
    assert s[|L|..|L| + |sep|] == sep;
    assert s[|L|..] == sep + rest;
    assert s[|L| + |sep|..] == (sep + rest)[|sep|..];
  }

  /** The text after a faulty line: one final newline or nothing. */
  function LineEnd(newline: bool): string
  {
    if newline then "\n" else ""
  }

  lemma FaultyPartOf(faulty: string, newline: bool)
    requires faulty != "" && '\n' !in faulty
    ensures FaultyPart(faulty + LineEnd(newline)) == Some(faulty)
  {
    var f := faulty + LineEnd(newline);
    if newline {
      assert f[..|f| - 1] == faulty;
    } else {
      assert f == faulty;
    }
  }

  lemma ColumnOf(C: string, faulty: string, newline: bool)
    requires C != "" && AllDigits(C) && faulty != "" && '\n' !in faulty
    ensures ParseColumn(C + (": " + (faulty + LineEnd(newline)))) == Some((DigitsValue(C), faulty))
  {
    var f := faulty + LineEnd(newline);
    var u := C + (": " + f);
    assert NumberPart(u, ": ") == Some(|C|) && u[..|C|] == C && u[|C| + 2..] == f by {
      NumberPartOf(C, ": ", f);
    }
    assert FaultyPart(f) == Some(faulty) by {
      FaultyPartOf(faulty, newline);
    }
  }

  lemma PositionOf(L: string, C: string, faulty: string, newline: bool)
    requires L != "" && AllDigits(L) && C != "" && AllDigits(C) && faulty != "" && '\n' !in faulty
    ensures ParsePosition(L + (":" + (C + (": " + (faulty + LineEnd(newline))))))
      == Some((DigitsValue(L), DigitsValue(C), faulty))
  {
    var u := C + (": " + (faulty + LineEnd(newline)));
    var t := L + (":" + u);
    assert NumberPart(t, ":") == Some(|L|) && t[..|L|] == L && t[|L| + 1..] == u by {
      NumberPartOf(L, ":", u);
    }
    assert ParseColumn(u) == Some((DigitsValue(C), faulty)) by {
      ColumnOf(C, faulty, newline);
    }
  }

  /**
   * Parsing gives back what was formatted, with or without one final
   * newline, for every message the pattern can capture.
   */
  lemma ParseFormat(m: ErrorMessage, newline: bool)
    requires WellFormed(m)
    ensures ParseMessage(FormatMessage(m) + LineEnd(newline)) == Ok(m)
  {
    var L, C := NatToString(m.line), NatToString(m.column);
    var t := L + (":" + (C + (": " + (m.faultyLine + LineEnd(newline)))));
    assert FormatMessage(m) + LineEnd(newline) == m.message + (": " + t);
    MessagePartOf(m.message, t);
    PositionOf(L, C, m.faultyLine, newline);
    NatToStringRoundTrip(m.line);
    NatToStringRoundTrip(m.column);
  }

  lemma FaultyShape(f: string) returns (newline: bool)
    requires FaultyPart(f).Some?
    ensures f == FaultyPart(f).value + LineEnd(newline)
  {
    newline := f != [] && f[|f| - 1] == '\n';
    if newline {
      assert f == f[..|f| - 1] + "\n";
    }
  }

  lemma ColumnShape(u: string) returns (C: string, newline: bool)
    requires ParseColumn(u).Some?
    ensures C != "" && AllDigits(C) && DigitsValue(C) == ParseColumn(u).value.0
    ensures u == C + (": " + (ParseColumn(u).value.1 + LineEnd(newline)))
  {
    var b := NumberPart(u, ": ").value;
    C := u[..b];
    newline := FaultyShape(u[b + 2..]);
    Cut3(u, b, b + 2);
  }

  lemma PositionShape(t: string) returns (L: string, C: string, newline: bool)
    requires ParsePosition(t).Some?
    ensures var p := ParsePosition(t).value;
      L != "" && AllDigits(L) && DigitsValue(L) == p.0
      && C != "" && AllDigits(C) && DigitsValue(C) == p.1
      && t == L + (":" + (C + (": " + (p.2 + LineEnd(newline)))))
  {
    var a := NumberPart(t, ":").value;
    var u := t[a + 1..];
    L := t[..a];
    C, newline := ColumnShape(u);
    Cut3(t, a, a + 1);
  }

  /**
   * A message that parses is made of its parts: the message, two digit runs
   * whose values are the line and column, the faulty line and possibly one
   * final newline.
   */
  lemma ParsedShape(s: string, m: ErrorMessage) returns (L: string, C: string, newline: bool)
    requires ParseMessage(s) == Ok(m)
    ensures L != "" && AllDigits(L) && DigitsValue(L) == m.line
    ensures C != "" && AllDigits(C) && DigitsValue(C) == m.column
    ensures s == m.message + (": " + (L + (":" + (C + (": " + (m.faultyLine + LineEnd(newline)))))))
  {
    var i := MessagePart(s).value;
    var t := s[i + 2..];
    L, C, newline := PositionShape(t);
    Cut3(s, i, i + 2);
  }

  /** The example from the tests: the parts of a formatter message that quotes a faulty `with` line. */
  lemma ParseCannotParse()
    ensures var faulty := "with new_open(\"abc) as f:";
      ParseMessage("Cannot parse" + ": " + "16" + ":" + "10" + ": " + faulty)
        == Ok(ErrorMessage("Cannot parse", 16, 10, faulty))
  {
    var m := CannotParseExample();
    ExampleNumbers();
    ParseFormat(m, false);
    assert FormatMessage(m) + LineEnd(false) == FormatMessage(m);
  }

  /** The message of the example, which the pattern can capture. */
  lemma CannotParseExample() returns (m: ErrorMessage)
    ensures m == ErrorMessage("Cannot parse", 16, 10, "with new_open(\"abc) as f:") && WellFormed(m)
  {
    m := ErrorMessage("Cannot parse", 16, 10, "with new_open(\"abc) as f:");
    assert forall i :: 0 <= i < |m.message| ==> m.message[i] != ':';
    assert forall i :: 0 <= i < |m.faultyLine| ==> m.faultyLine[i] != '\n';
  }

  /** The line and column of the example, written in decimal. */
  lemma ExampleNumbers()
    ensures NatToString(16) == "16" && NatToString(10) == "10"
  {
    assert NatToString(16) == NatToString(1) + [DigitChar(6)];
    assert NatToString(10) == NatToString(1) + [DigitChar(0)];
  }

  // ---------------------------------------------------------------- blacken

  /** What the formatter does with a piece of code at a given line length. */
  datatype FormatOutcome =
    | Formatted(code: string)
    | TokenError(message: string, line: int, column: int)   // the tokenizer's `TokenError(message, (line, column))`
    | InvalidInputRaised(text: string)                      // `black.InvalidInput`, as `str(e)`

  /** The line length of a default `black.FileMode()`. */
  const DefaultLineLength: int := 88

  /**
   * The line length the formatter is given: the configured one (the default
   * when no mode is passed) less the fragment's indentation and prompt. The
   * mode is copied first, so the caller's mode is never changed.
   */
  function Budget(mode: Option<int>, depth: int, promptLength: int): (n: int)
    ensures n + depth + promptLength == (if mode.None? then DefaultLineLength else mode.value)
  {
    var lineLength := if mode.None? then DefaultLineLength else mode.value;
    lineLength - (depth + promptLength)
  }

  /** Python's `s[k]`, where a negative `k` counts from the end. */
  function PyIndex<T>(s: seq<T>, k: int): (r: Result<T>)
    ensures r.Ok? <==> -|s| <= k < |s|
    ensures r.Ok? ==> r.value == s[if k < 0 then k + |s| else k]
    ensures r.Err? ==> r.error == IndexError("list index out of range")
  {
    if -|s| <= k < 0 then Ok(s[k + |s|])
    else if 0 <= k < |s| then Ok(s[k])
    else Err(IndexError("list index out of range"))
  }

  /**
   * The `InvalidInput` a tokenizer error becomes: the line is counted in the
   * document, and the code line quoted is `code.split("\n")[line - 2]`.
   */
  function TokenErrorRaised(start: int, code: string, message: string, line: int, column: int): (r: Error)
    ensures r.InvalidInput? || r.IndexError?
  {
    match PyIndex(Split(code), (line - 1) - 1)
    case Err(e) => e
    case Ok(faulty) =>
      InvalidInput("Cannot parse: " + IntToString(start + (line - 1)) + ":" + IntToString(column) + ": "
                   + message + ": " + faulty)
  }

  /** A formatter message with its line counted in the document instead of the fragment. */
  function Remapped(start: int, m: ErrorMessage): string
  {
    m.message + ": " + IntToString(start + (m.line - 1)) + ":" + NatToString(m.column) + ": " + m.faultyLine
  }

  /** The extraction function, from a unit and its format to its depth, prompt length and code. */
  type Extractor = (string, string) -> Result<(int, int, string)>
  /** The formatter, from code and a line length. */
  type Formatter = (string, int) -> FormatOutcome
  /** The reformatting function, from formatted code, a format and a depth. */
  type Reformatter = (string, string, int) -> Result<string>

  /** The name under which plain text is classified. */
  const Plain: string := "none"

  /**
   * What `blacken` makes of one fragment: plain text passes unchanged;
   * otherwise the code is extracted, formatted at the reduced line length
   * with trailing whitespace stripped, and reformatted at the unit's depth;
   * errors from extraction and reformatting propagate, and the formatter's
   * are re-raised as `InvalidInput` at document line numbers.
   */
  function BlackenFragment(f: Fragment, mode: Option<int>, extract: Extractor, format: Formatter,
                           reformat: Reformatter): (r: Result<string>)
    ensures f.notation == Plain ==> r == Ok(f.text)
    ensures f.notation != Plain && extract(f.text, f.notation).Err? ==> r == Err(extract(f.text, f.notation).error)
    ensures f.notation != Plain && extract(f.text, f.notation).Ok? ==>
      var (depth, promptLength, code) := extract(f.text, f.notation).value;
      var outcome := format(code, Budget(mode, depth, promptLength));
      (outcome.Formatted? ==> r == reformat(RStrip(outcome.code), f.notation, depth))
      && (!outcome.Formatted? ==> r.Err? && (r.error.InvalidInput? || r.error.IndexError? || r.error.ValueError?))
  {
    if f.notation == Plain then Ok(f.text)
    else
      match extract(f.text, f.notation)
      case Err(e) => Err(e)
      case Ok((depth, promptLength, code)) =>
        var start := f.range.0;
        match format(code, Budget(mode, depth, promptLength))
        case Formatted(formatted) => reformat(RStrip(formatted), f.notation, depth)
        case TokenError(message, line, column) => Err(TokenErrorRaised(start, code, message, line, column))
        case InvalidInputRaised(text) =>
          match ParseMessage(text)
          case Err(e) => Err(e)
          case Ok(m) => Err(InvalidInput(Remapped(start, m)))
  }

  /**
   * A formatter message that parses is re-raised with the same message,
   * column and faulty line, at line `start + L - 1` of the document; one that
   * does not parse raises `ValueError`.
   */
  lemma InvalidInputRemapped(f: Fragment, mode: Option<int>, extract: Extractor, format: Formatter,
                             reformat: Reformatter)
    requires f.notation != Plain && extract(f.text, f.notation).Ok? && f.range.0 >= 1
    requires var (depth, promptLength, code) := extract(f.text, f.notation).value;
      format(code, Budget(mode, depth, promptLength)).InvalidInputRaised?
    ensures var (depth, promptLength, code) := extract(f.text, f.notation).value;
      var text := format(code, Budget(mode, depth, promptLength)).text;
      var r := BlackenFragment(f, mode, extract, format, reformat);
      (ParseMessage(text).Err? ==> r == Err(Invalid(text)))
      && (ParseMessage(text).Ok? ==>
            var m := ParseMessage(text).value;
            r.Err? && r.error.InvalidInput?
            && ParseMessage(r.error.message)
                 == Ok(ErrorMessage(m.message, f.range.0 + m.line - 1, m.column, m.faultyLine)))
  {
    var (depth, promptLength, code) := extract(f.text, f.notation).value;
    var text := format(code, Budget(mode, depth, promptLength)).text;
    if ParseMessage(text).Ok? {
      var m := ParseMessage(text).value;
      var moved := ErrorMessage(m.message, f.range.0 + m.line - 1, m.column, m.faultyLine);
      assert Remapped(f.range.0, m) == FormatMessage(moved) + LineEnd(false);
      ParseFormat(moved, false);
    }
  }

  /**
   * A tokenizer error at fragment line `L` is re-raised at document line
   * `start + L - 1`, quoting line `L - 1` of the code (the last line when
   * `L` is 1, by Python's negative indexing); past the end it raises
   * `IndexError`.
   */
  lemma TokenErrorRemapped(f: Fragment, mode: Option<int>, extract: Extractor, format: Formatter,
                           reformat: Reformatter)
    requires f.notation != Plain && extract(f.text, f.notation).Ok?
    requires var (depth, promptLength, code) := extract(f.text, f.notation).value;
      format(code, Budget(mode, depth, promptLength)).TokenError?
    ensures var (depth, promptLength, code) := extract(f.text, f.notation).value;
      var e := format(code, Budget(mode, depth, promptLength));
      var lines := Split(code);
      var r := BlackenFragment(f, mode, extract, format, reformat);
      var cannot := "Cannot parse: " + IntToString(f.range.0 + e.line - 1) + ":" + IntToString(e.column) + ": " + e.message + ": ";
      (2 <= e.line <= |lines| + 1 ==> r == Err(InvalidInput(cannot + lines[e.line - 2])))
      && (e.line == 1 ==> r == Err(InvalidInput(cannot + lines[|lines| - 1])))
      && (e.line > |lines| + 1 ==> r == Err(IndexError("list index out of range")))
  {
  }

  /** The outputs `blacken` yields before it ends, and the error that ended it, if any. */
  datatype Blackened = Blackened(outputs: seq<string>, error: Option<Error>)

  /** `blacken` as a specification: one output per fragment, in order, up to the first error. */
  function BlackenSpec(fragments: seq<Fragment>, mode: Option<int>, extract: Extractor, format: Formatter,
                       reformat: Reformatter): (b: Blackened)
    ensures |b.outputs| <= |fragments|
  {
    if fragments == [] then Blackened([], None)
    else
      match BlackenFragment(fragments[0], mode, extract, format, reformat)
      case Err(e) => Blackened([], Some(e))
      case Ok(out) =>
        var rest := BlackenSpec(fragments[1..], mode, extract, format, reformat);
        Blackened([out] + rest.outputs, rest.error)
  }

  /**
   * `blacken` yields exactly one output per fragment, in order, each what
   * the fragment alone gives; an error ends it at the fragment that raised.
   */
  lemma {:induction false} BlackenOutputs(fragments: seq<Fragment>, mode: Option<int>, extract: Extractor,
                                          format: Formatter, reformat: Reformatter)
    ensures var b := BlackenSpec(fragments, mode, extract, format, reformat);
      (b.error.None? ==> |b.outputs| == |fragments|)
    ensures var b := BlackenSpec(fragments, mode, extract, format, reformat);
      b.error.Some? ==> |b.outputs| < |fragments|
    ensures var b := BlackenSpec(fragments, mode, extract, format, reformat);
      b.error.Some? && |b.outputs| < |fragments| ==>
        BlackenFragment(fragments[|b.outputs|], mode, extract, format, reformat) == Err(b.error.value)
    ensures var b := BlackenSpec(fragments, mode, extract, format, reformat);
      forall i :: 0 <= i < |b.outputs| ==>
           BlackenFragment(fragments[i], mode, extract, format, reformat) == Ok(b.outputs[i])
  {
    if fragments != [] {
      BlackenOutputs(fragments[1..], mode, extract, format, reformat);
      var b := BlackenSpec(fragments, mode, extract, format, reformat);
      var rest := BlackenSpec(fragments[1..], mode, extract, format, reformat);
      if BlackenFragment(fragments[0], mode, extract, format, reformat).Ok? {
        forall i | 1 <= i < |b.outputs|
          ensures BlackenFragment(fragments[i], mode, extract, format, reformat) == Ok(b.outputs[i])
        {
          assert b.outputs[i] == rest.outputs[i - 1] && fragments[i] == fragments[1..][i - 1];
        }
        if b.error.Some? {
          assert fragments[|b.outputs|] == fragments[1..][|rest.outputs|];
        }
      }
    }
  }

  /** Plain-text fragments come out as they went in, whatever the formatter does. */
  lemma PlainUnchanged(fragments: seq<Fragment>, mode: Option<int>, extract: Extractor, format: Formatter,
                       reformat: Reformatter)
    requires forall i :: 0 <= i < |fragments| ==> fragments[i].notation == Plain
    ensures BlackenSpec(fragments, mode, extract, format, reformat)
      == Blackened(seq(|fragments|, i requires 0 <= i < |fragments| => fragments[i].text), None)
  {
    BlackenOutputs(fragments, mode, extract, format, reformat);
  }

  /** `blacken`: the loop over the fragments, which stops at the first error. */
  method Blacken(fragments: seq<Fragment>, mode: Option<int>, extract: Extractor, format: Formatter,
                 reformat: Reformatter) returns (b: Blackened)
    ensures b == BlackenSpec(fragments, mode, extract, format, reformat)
  {
    var outputs: seq<string> := [];
    for i := 0 to |fragments|
      invariant var rest := BlackenSpec(fragments[i..], mode, extract, format, reformat);
        BlackenSpec(fragments, mode, extract, format, reformat) == Blackened(outputs + rest.outputs, rest.error)
    {
      assert fragments[i..][1..] == fragments[i + 1..];
      var r := BlackenFragment(fragments[i], mode, extract, format, reformat);
      if r.Err? {
        return Blackened(outputs, Some(r.error));
      }
      outputs := outputs + [r.value];
    }
    assert fragments[|fragments|..] == [];
    b := Blackened(outputs, None);
  }
}
