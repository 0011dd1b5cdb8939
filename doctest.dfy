/**
 * The doctest format: `>>> ` lines followed by `... ` continuation lines.
 * Detection claims a prompt line and the continuation lines after it;
 * extraction strips the prompts and remembers which triple quotes the code
 * used; reformatting puts the quotes back, splits the code into statements
 * and prompts every line again.
 *
 * Python's tokenizer and `ast` are not part of this model: their results
 * enter as parameters (the string tokens of a piece of code, the first line
 * number of each top-level statement).
 */
module Doctest {
  import opened Common
  import opened Text
  import opened Stream
  import opened Protocol

  const Name: string := "doctest"
  const PromptLength: nat := 4
  const Prompt: string := ">>>"
  const ContinuationPrompt: string := "..."
  const NotContiguous: Error := InvalidFormatError("line numbers are not contiguous")

  /** `prompt_re.match(line.lstrip())`: the line opens a code unit. */
  predicate IsPromptLine(line: string)
  {
    StartsWith(LStrip(line), Prompt)
  }

  /** `continuation_prompt_re.match(line.lstrip())`. */
  predicate IsContinuation(l: NumberedLine)
  {
    StartsWith(LStrip(l.1), ContinuationPrompt)
  }

  // ---------------------------------------------------------------- detection

  /**
   * `detection_func` as a specification: a line whose stripped form starts
   * with `>>>`, together with the continuation lines that follow it.
   */
  function DetectSpec(rem: seq<NumberedLine>): (s: Step)
    ensures Sound(rem, s, Name, 0)
    ensures s.detection.Declined? <==> rem == [] || !IsPromptLine(rem[0].1)
    ensures !s.detection.Declined? ==>
      s.claimed == |rem| - |s.rest|
      && (forall i :: 1 <= i < s.claimed ==> IsContinuation(rem[i]))
      && (s.rest == [] || !IsContinuation(s.rest[0]))
  {
    if rem == [] || !IsPromptLine(rem[0].1) then Step(Declined, 0, rem)
    else
      var k := 1 + Run(rem[1..], IsContinuation);
      RunClaim(rem, IsContinuation, Name, 0, NotContiguous);
      Step(Claim(rem[..k], Name, 0, NotContiguous), k, rem[k..])
  }

  /** `continuation_lines`: consumes and returns the continuation lines at the head of the stream. */
  method ContinuationLines(lines: Peekable<NumberedLine>) returns (taken: seq<NumberedLine>)
    requires lines.Valid()
    modifies lines
    ensures lines.Valid()
    ensures taken == old(lines.Remaining())[..Run(old(lines.Remaining()), IsContinuation)]
    ensures lines.Remaining() == old(lines.Remaining())[Run(old(lines.Remaining()), IsContinuation)..]
  {
    EmptyNotContinuation();
    taken := PeekWhile(lines, IsContinuation, (-1, ""));
  }

  /** The default `(-1, "")` that `peek` gives at the end of the stream is no continuation line. */
  lemma EmptyNotContinuation()
    ensures !IsContinuation((-1, ""))
  {
    assert LStrip("") == "";
  }

  /** A claim as the stream method assembles it: the prompt line, then what `continuation_lines` took. */
  lemma DetectClaimed(start: seq<NumberedLine>, more: seq<NumberedLine>)
    requires start != [] && IsPromptLine(start[0].1)
    requires more == start[1..][..Run(start[1..], IsContinuation)]
    ensures var k := 1 + Run(start[1..], IsContinuation);
      k <= |start| && [start[0]] + more == start[..k] && start[1..][k - 1..] == start[k..]
      && DetectSpec(start) == Step(Claim(start[..k], Name, 0, NotContiguous), k, start[k..])
  {
    var n := Run(start[1..], IsContinuation);
    ConsTake(start, n);
    DropDrop(start, 1, n);
  }

  /** `detection_func`. */
  method Detect(lines: Peekable<NumberedLine>) returns (r: Detection)
    requires lines.Valid()
    modifies lines
    ensures lines.Valid()
    ensures r == DetectSpec(old(lines.Remaining())).detection
    ensures lines.Remaining() == DetectSpec(old(lines.Remaining())).rest
  {
    ghost var start := lines.Remaining();
    var head := lines.Peek();
    var line := if head.None? then "" else head.value.1;
    if !IsPromptLine(line) {
      return Declined;
    }
    var first := lines.Next();
    var more := ContinuationLines(lines);
    DetectClaimed(start, more);
    r := Claim([first.value] + more, Name, 0, NotContiguous);
  }

  // --------------------------------------------------------------- extraction

  /**
   * `extract_prompt` inside `extraction_func`: the prompt at the very start of
   * the line (`>>> ?`, else `\.\.\. ?`), or the empty string.
   */
  function LinePrompt(line: string): (p: string)
    ensures StartsWith(line, p)
    ensures p == "" <==> !StartsWith(line, ">>>") && !StartsWith(line, "...")
    ensures StartsWith(line, ">>>") ==> p == (if StartsWith(line, ">>> ") then ">>> " else ">>>")
    ensures !StartsWith(line, ">>>") && StartsWith(line, "...") ==>
      p == (if StartsWith(line, "... ") then "... " else "...")
  {
    if StartsWith(line, ">>> ") then ">>> "
    else if StartsWith(line, ">>>") then ">>>"
    else if StartsWith(line, "... ") then "... "
    else if StartsWith(line, "...") then "..."
    else ""
  }

  /**
   * The check of `extraction_func`: the line's prompt, stripped on the right,
   * is `>>>` or `...`, which holds exactly when a prompt was found.
   */
  predicate HasPrompt(line: string)
  {
    LinePrompt(line) != ""
  }

  function RemovePrompt(line: string): (r: string)
    ensures LinePrompt(line) + r == line
  {
    line[|LinePrompt(line)|..]
  }

  function RemovePrompts(lines: seq<string>): (r: seq<string>)
    ensures |r| == |lines|
    ensures forall i :: 0 <= i < |lines| ==> r[i] == RemovePrompt(lines[i])
  {
    if lines == [] then [] else [RemovePrompt(lines[0])] + RemovePrompts(lines[1..])
  }

  /** The two styles of triple quotes a docstring can use. */
  datatype Quotes = SingleQuotes | DoubleQuotes

  function QuoteText(q: Quotes): (r: string)
    ensures |r| == 3 && r[0] == r[1] == r[2] == QuoteChar(q)
  {
    if q == SingleQuotes then "'''" else "\"\"\""
  }

  function QuoteChar(q: Quotes): char
  {
    if q == SingleQuotes then '\'' else '"'
  }

  /** A string token as Python's tokenizer reports it: 1-based line and 0-based column of its ends, and its text. */
  datatype Token = Token(start: (int, int), end: (int, int), text: string)

  predicate Delimited(s: string, q: Quotes)
  {
    StartsWith(s, QuoteText(q)) && EndsWith(s, QuoteText(q))
  }

  /** `extract_quotes`: single triple quotes take precedence over double ones. */
  function QuotesOf(s: string): (r: Option<Quotes>)
    ensures r.None? <==> !Delimited(s, SingleQuotes) && !Delimited(s, DoubleQuotes)
    ensures r.Some? ==> Delimited(s, r.value)
  {
    if Delimited(s, SingleQuotes) then Some(SingleQuotes)
    else if Delimited(s, DoubleQuotes) then Some(DoubleQuotes)
    else None
  }

  predicate Unquoted(t: Token)
  {
    QuotesOf(t.text).None?
  }

  /**
   * `detect_docstring_quotes` on the string tokens of the code: the quotes of
   * the first token delimited by triple quotes, if any.
   */
  function DetectQuotes(tokens: seq<Token>): (r: Option<Quotes>)
    ensures r.None? <==> forall i :: 0 <= i < |tokens| ==> Unquoted(tokens[i])
    ensures r.Some? ==> var k := Run(tokens, Unquoted);
      k < |tokens| && r == QuotesOf(tokens[k].text) && Delimited(tokens[k].text, r.value)
  {
    var k := Run(tokens, Unquoted);
    if k == |tokens| then None else QuotesOf(tokens[k].text)
  }

  predicate AllPrompted(lines: seq<string>)
  {
    forall i :: 0 <= i < |lines| ==> HasPrompt(lines[i])
  }

  /** The parameters extraction hands to reformatting. */
  datatype Params = Params(promptLength: nat, docstringQuotes: Option<Quotes>)

  /**
   * `extraction_func`: every line must start with a prompt; the prompts are
   * removed and the quotes are detected on the string tokens (`tokenize`) of
   * the code left over.
   */
  function Extract(code: string, tokenize: string -> seq<Token>): (r: Result<(Params, string)>)
    ensures r.Err? <==> !AllPrompted(Split(code))
    ensures r.Err? ==> r.error == InvalidFormatError("misformatted code unit: " + code)
    ensures r.Ok? ==> r.value.0.promptLength == PromptLength
    ensures r.Ok? ==> r.value.0.docstringQuotes == DetectQuotes(tokenize(r.value.1))
    ensures r.Ok? ==> |Split(r.value.1)| == |Split(code)|
    ensures r.Ok? ==> forall i :: 0 <= i < |Split(code)| ==> LinePrompt(Split(code)[i]) + Split(r.value.1)[i] == Split(code)[i]
  {
    var lines := Split(code);
    if !AllPrompted(lines) then
      Err(InvalidFormatError("misformatted code unit: " + code))
    else
      var extracted := RemovePrompts(lines);
      NoNewlineAfterRemoval(lines);
      SplitJoin(extracted);
      var code' := Join(extracted);
      Ok((Params(|Prompt| + 1, DetectQuotes(tokenize(code'))), code'))
  }

  lemma NoNewlineAfterRemoval(lines: seq<string>)
    requires forall i :: 0 <= i < |lines| ==> '\n' !in lines[i]
    ensures forall i :: 0 <= i < |lines| ==> '\n' !in RemovePrompts(lines)[i]
  {
    forall i | 0 <= i < |lines| ensures '\n' !in RemovePrompts(lines)[i] {
      var l := lines[i];
      assert RemovePrompts(lines)[i] == l[|LinePrompt(l)|..];
      assert forall c :: c in l[|LinePrompt(l)|..] ==> c in l;
    }
  }

  // ------------------------------------------------------------ restore_quotes

  /** The quotes `restore_quotes` replaces: the other style. */
  function Other(q: Quotes): Quotes
  {
    if q == DoubleQuotes then SingleQuotes else DoubleQuotes
  }

  /** The offsets just past every newline of `code` at or after index `i`, in ascending order. */
  function NewlineEnds(code: string, i: nat): (r: seq<nat>)
    requires i <= |code|
    ensures forall k :: 0 <= k < |r| ==> i < r[k] <= |code| && code[r[k] - 1] == '\n'
    ensures forall a, b :: 0 <= a < b < |r| ==> r[a] < r[b]
    decreases |code| - i
  {
    if i == |code| then []
    else
      var t := NewlineEnds(code, i + 1);
      if code[i] == '\n' then
        var r := [i + 1] + t;
        assert forall k :: 1 <= k < |r| ==> r[k] == t[k - 1];
        r
      else t
  }

  /** No newline is missed. */
  lemma {:induction false} NewlineEndsComplete(code: string, i: nat)
    requires i <= |code|
    ensures forall j :: i <= j < |code| && code[j] == '\n' ==> j + 1 in NewlineEnds(code, i)
    decreases |code| - i
  {
    if i < |code| {
      NewlineEndsComplete(code, i + 1);
    }
  }

  /** There is one line more than there are newlines. */
  lemma {:induction false} NewlineEndsCount(code: string, i: nat)
    requires i <= |code|
    ensures |NewlineEnds(code, i)| + 1 == |Split(code[i..])|
    decreases |code| - i
  {
    if i < |code| {
      NewlineEndsCount(code, i + 1);
      assert code[i..][1..] == code[i + 1..];
    }
  }

  /**
   * `line_offsets`: the offset where each line starts, line 1 at index 0 and
   * every other line just past a newline, one per line of the code.
   */
  function LineStarts(code: string): (r: seq<nat>)
    ensures |r| == |Split(code)| && r[0] == 0
    ensures forall k :: 0 <= k < |r| ==> r[k] <= |code|
    ensures forall k :: 1 <= k < |r| ==> 1 <= r[k] && code[r[k] - 1] == '\n'
    ensures forall a, b :: 0 <= a < b < |r| ==> r[a] < r[b]
    ensures forall j :: 0 <= j < |code| && code[j] == '\n' ==> j + 1 in r
  {
    NewlineEndsCount(code, 0);
    NewlineEndsComplete(code, 0);
    assert code[0..] == code;
    var t := NewlineEnds(code, 0);
    var r := [0] + t;
    assert forall k :: 1 <= k < |r| ==> r[k] == t[k - 1];
    r
  }

  /** `compute_offset`, where the line number is one `line_offsets` knows. */
  function Offset(code: string, pos: (int, int)): int
    requires 1 <= pos.0 <= |LineStarts(code)|
  {
    LineStarts(code)[pos.0 - 1] + pos.1
  }

  /** What the tokenizer guarantees of a token: its positions point at its text in the code. */
  predicate Locates(code: string, t: Token)
  {
    1 <= t.start.0 <= |LineStarts(code)| && 1 <= t.end.0 <= |LineStarts(code)|
    && 0 <= Offset(code, t.start) <= Offset(code, t.end) <= |code|
    && code[Offset(code, t.start)..Offset(code, t.end)] == t.text
  }

  predicate LocatesAll(code: string, tokens: seq<Token>)
  {
    forall i :: 0 <= i < |tokens| ==> Locates(code, tokens[i])
  }

  /** The tokens written in the quotes `restore_quotes` replaces. */
  function Targets(tokens: seq<Token>, q: Quotes): (r: seq<Token>)
    ensures forall k :: 0 <= k < |r| ==> r[k] in tokens && Delimited(r[k].text, q)
    ensures forall t :: t in tokens && Delimited(t.text, q) ==> t in r
  {
    if tokens == [] then []
    else (if Delimited(tokens[0].text, q) then [tokens[0]] else []) + Targets(tokens[1..], q)
  }

  /** The targets are tokens of the code, so the tokenizer located them too. */
  lemma TargetsLocated(code: string, tokens: seq<Token>, q: Quotes)
    requires LocatesAll(code, tokens)
    ensures LocatesAll(code, Targets(tokens, q))
  {
    var ts := Targets(tokens, q);
    forall k | 0 <= k < |ts| ensures Locates(code, ts[k]) {
      var j :| 0 <= j < |tokens| && tokens[j] == ts[k];
    }
  }

  /**
   * The offsets of the opening and the closing quotes of a token (only asked
   * of tokens the tokenizer located and that are delimited by triple quotes).
   */
  function Span(code: string, t: Token, q: Quotes): (r: (nat, nat))
    ensures Locates(code, t) && Delimited(t.text, q) ==> SpanFits(r, |code|)
  {
    if Locates(code, t) && Delimited(t.text, q) then
      assert |QuoteText(q)| == 3;
      (Offset(code, t.start), Offset(code, t.end) - 3)
    else (0, 0)
  }

  predicate SpanFits(span: (nat, nat), n: nat)
  {
    span.0 + 3 <= n && span.1 + 3 <= n
  }

  function Spans(code: string, ts: seq<Token>, q: Quotes): (r: seq<(nat, nat)>)
    ensures |r| == |ts|
    ensures forall k :: 0 <= k < |ts| ==> r[k] == Span(code, ts[k], q)
  {
    seq(|ts|, k requires 0 <= k < |ts| => Span(code, ts[k], q))
  }

  lemma SpansFit(code: string, ts: seq<Token>, q: Quotes)
    requires LocatesAll(code, ts)
    requires forall k :: 0 <= k < |ts| ==> Delimited(ts[k].text, q)
    ensures AllFit(Spans(code, ts, q), |code|)
  {
    var r := Spans(code, ts, q);
    forall k | 0 <= k < |r| ensures SpanFits(r[k], |code|) {
      assert Locates(code, ts[k]) && Delimited(ts[k].text, q);
      assert r[k] == Span(code, ts[k], q);
    }
  }

  /** `seek(at)` then `write(w)` on the buffer: overwrites the characters from `at`. */
  function Write(buf: string, at: nat, w: string): (r: string)
    requires at + |w| <= |buf|
    ensures |r| == |buf|
  {
    buf[..at] + w + buf[at + |w|..]
  }

  lemma WriteIndex(buf: string, at: nat, w: string, i: nat)
    requires at + |w| <= |buf| && i < |buf|
    ensures Write(buf, at, w)[i] == (if at <= i < at + |w| then w[i - at] else buf[i])
  {
  }

  predicate AllFit(spans: seq<(nat, nat)>, n: nat)
  {
    forall k :: 0 <= k < |spans| ==> SpanFits(spans[k], n)
  }

  /** The writes of the loop of `restore_quotes`, token after token, opening quotes first. */
  function Overwrite(buf: string, spans: seq<(nat, nat)>, q: Quotes): (r: string)
    requires AllFit(spans, |buf|)
    ensures |r| == |buf|
    decreases |spans|
  {
    if spans == [] then buf
    else
      var last := spans[|spans| - 1];
      var w := QuoteText(q);
      assert SpanFits(last, |buf|) && |w| == 3;
      Write(Write(Overwrite(buf, spans[..|spans| - 1], q), last.0, w), last.1, w)
  }

  /** `restore_quotes` as a specification; `tokens` are the string tokens of `code`. */
  function Restore(code: string, tokens: seq<Token>, q: Option<Quotes>): (r: string)
    requires LocatesAll(code, tokens)
    ensures |r| == |code|
  {
    if q.None? then code
    else
      var ts := Targets(tokens, Other(q.value));
      TargetsLocated(code, tokens, Other(q.value));
      var spans := Spans(code, ts, Other(q.value));
      SpansFit(code, ts, Other(q.value));
      Overwrite(code, spans, q.value)
  }

  /** A character one of the writes for `span` lands on. */
  predicate InWindow(i: int, span: (nat, nat))
  {
    span.0 <= i < span.0 + 3 || span.1 <= i < span.1 + 3
  }

  /** Some write of `spans` lands on character `i`. */
  predicate Covered(i: int, spans: seq<(nat, nat)>)
    decreases |spans|
  {
    spans != [] && (Covered(i, spans[..|spans| - 1]) || InWindow(i, spans[|spans| - 1]))
  }

  lemma {:induction false} CoveredByOne(i: int, spans: seq<(nat, nat)>, k: nat)
    requires k < |spans| && InWindow(i, spans[k])
    ensures Covered(i, spans)
    decreases |spans|
  {
    if k < |spans| - 1 {
      assert spans[..|spans| - 1][k] == spans[k];
      CoveredByOne(i, spans[..|spans| - 1], k);
    }
  }

  lemma {:induction false} OverwriteEffect(buf: string, spans: seq<(nat, nat)>, q: Quotes, i: nat)
    requires AllFit(spans, |buf|)
    requires i < |buf|
    ensures Overwrite(buf, spans, q)[i] == (if Covered(i, spans) then QuoteChar(q) else buf[i])
    decreases |spans|
  {
    if spans != [] {
      var init := spans[..|spans| - 1];
      var last := spans[|spans| - 1];
      var w := QuoteText(q);
      assert AllFit(init, |buf|);
      OverwriteEffect(buf, init, q, i);
      var b1 := Overwrite(buf, init, q);
      var b2 := Write(b1, last.0, w);
      WriteIndex(b1, last.0, w, i);
      WriteIndex(b2, last.1, w, i);
    }
  }

  /**
   * What `restore_quotes` does: the length stays; a character changes only
   * when it is one of the three opening or three closing quote characters of
   * a string token written in the other style of triple quotes, and that
   * character becomes the original quote character.
   */
  lemma RestoreEffect(code: string, tokens: seq<Token>, q: Quotes, i: nat)
    requires LocatesAll(code, tokens)
    requires i < |code|
    ensures Restore(code, tokens, Some(q))[i] ==
      (if Covered(i, Spans(code, Targets(tokens, Other(q)), Other(q))) then QuoteChar(q) else code[i])
  {
    var ts := Targets(tokens, Other(q));
    OverwriteEffect(code, Spans(code, ts, Other(q)), q, i);
  }

  /** Every span ends up holding the quotes at both of its windows. */
  lemma OverwriteDelimits(buf: string, spans: seq<(nat, nat)>, q: Quotes, k: nat)
    requires AllFit(spans, |buf|) && k < |spans|
    ensures forall i :: InWindow(i, spans[k]) ==> 0 <= i < |buf| && Overwrite(buf, spans, q)[i] == QuoteChar(q)
  {
    forall i | InWindow(i, spans[k]) ensures 0 <= i < |buf| && Overwrite(buf, spans, q)[i] == QuoteChar(q) {
      assert SpanFits(spans[k], |buf|);
      CoveredByOne(i, spans, k);
      OverwriteEffect(buf, spans, q, i);
    }
  }

  /** A token written in the replaced quotes is a target, located by its span. */
  lemma TargetSpan(code: string, tokens: seq<Token>, q: Quotes, t: Token) returns (k: nat)
    requires LocatesAll(code, tokens)
    requires t in tokens && Delimited(t.text, q)
    ensures Locates(code, t) && Offset(code, t.start) + 3 <= Offset(code, t.end) <= |code|
    ensures k < |Targets(tokens, q)| && Targets(tokens, q)[k] == t
    ensures Spans(code, Targets(tokens, q), q)[k] == (Offset(code, t.start), Offset(code, t.end) - 3)
  {
    var j :| 0 <= j < |tokens| && tokens[j] == t;
    assert Locates(code, t);
    assert |QuoteText(q)| == 3;
    var ts := Targets(tokens, q);
    assert t in ts;
    k :| 0 <= k < |ts| && ts[k] == t;
    TargetsLocated(code, tokens, q);
    assert Spans(code, ts, q)[k] == Span(code, t, q);
  }

  /** The three characters from `a` and the three before `b` are the quote character of `q`. */
  ghost predicate QuotedBetween(r: string, a: int, b: int, q: Quotes)
  {
    0 <= a && a + 3 <= b <= |r|
    && forall i :: a <= i < a + 3 || b - 3 <= i < b ==> r[i] == QuoteChar(q)
  }

  /** After restoring, each replaced token opens and closes with the original quotes. */
  lemma RestoredDelimiters(code: string, tokens: seq<Token>, q: Quotes, t: Token)
    requires LocatesAll(code, tokens)
    requires t in tokens && Delimited(t.text, Other(q))
    ensures Locates(code, t)
    ensures QuotedBetween(Restore(code, tokens, Some(q)), Offset(code, t.start), Offset(code, t.end), q)
  {
    var k := TargetSpan(code, tokens, Other(q), t);
    RestoredAt(code, tokens, q, k);
    var span := Spans(code, Targets(tokens, Other(q)), Other(q))[k];
    assert QuotedBetween(Restore(code, tokens, Some(q)), span.0, span.1 + 3, q);
    assert span.0 == Offset(code, t.start) && span.1 + 3 == Offset(code, t.end);
  }

  /** After restoring, the windows of the `k`-th replaced token hold the original quotes. */
  lemma RestoredAt(code: string, tokens: seq<Token>, q: Quotes, k: nat)
    requires LocatesAll(code, tokens) && k < |Targets(tokens, Other(q))|
    ensures var span := Spans(code, Targets(tokens, Other(q)), Other(q))[k];
      QuotedBetween(Restore(code, tokens, Some(q)), span.0, span.1 + 3, q)
  {
    var ts := Targets(tokens, Other(q));
    TargetsLocated(code, tokens, Other(q));
    var spans := Spans(code, ts, Other(q));
    SpansFit(code, ts, Other(q));
    OverwriteDelimits(code, spans, q, k);
  }

  /** One more token's writes extend the overwriting by one span. */
  lemma OverwriteStep(buf: string, spans: seq<(nat, nat)>, q: Quotes, k: nat)
    requires AllFit(spans, |buf|) && k < |spans|
    ensures AllFit(spans[..k], |buf|) && AllFit(spans[..k + 1], |buf|)
    ensures Overwrite(buf, spans[..k + 1], q) ==
      Write(Write(Overwrite(buf, spans[..k], q), spans[k].0, QuoteText(q)), spans[k].1, QuoteText(q))
  {
    assert spans[..k + 1][..k] == spans[..k];
  }

  /**
   * `restore_quotes` on a mutable buffer: each replaced token gets the
   * original quotes written over its first and its last three characters.
   */
  method RestoreQuotes(code: string, tokens: seq<Token>, q: Option<Quotes>) returns (restored: string)
    requires LocatesAll(code, tokens)
    ensures restored == Restore(code, tokens, q)
  {
    if q.None? {
      return code;
    }
    var targets := Targets(tokens, Other(q.value));
    TargetsLocated(code, tokens, Other(q.value));
    var spans := Spans(code, targets, Other(q.value));
    SpansFit(code, targets, Other(q.value));
    restored := WriteQuotes(code, spans, q.value);
  }

  /** The loop of `restore_quotes` over an in-memory buffer holding the code. */
  method WriteQuotes(code: string, spans: seq<(nat, nat)>, q: Quotes) returns (restored: string)
    requires AllFit(spans, |code|)
    ensures restored == Overwrite(code, spans, q)
  {
    var quotes := QuoteText(q);
    var buffer := new char[|code|](i requires 0 <= i < |code| => code[i]);
    assert buffer[..] == code;
    var k := 0;
    while k < |spans|
      invariant 0 <= k <= |spans|
      invariant AllFit(spans[..k], |code|)
      invariant buffer.Length == |code|
      invariant buffer[..] == Overwrite(code, spans[..k], q)
    {
      OverwriteStep(code, spans, q, k);
      WriteAt(buffer, spans[k].0, quotes);
      WriteAt(buffer, spans[k].1, quotes);
      k := k + 1;
    }
    assert spans[..|spans|] == spans;
    restored := buffer[..];
  }

  /** `seek` and `write` on the buffer. */
  method WriteAt(buffer: array<char>, at: nat, w: string)
    requires at + |w| <= buffer.Length
    modifies buffer
    ensures buffer[..] == Write(old(buffer[..]), at, w)
  {
    var j := 0;
    while j < |w|
      invariant 0 <= j <= |w|
      invariant buffer[..] == old(buffer[..])[..at] + w[..j] + old(buffer[..])[at + j..]
    {
      buffer[at + j] := w[j];
      j := j + 1;
    }
  }

  // --------------------------------------------------------- split_by_statement

  function Concat(units: seq<seq<string>>): (r: seq<string>)
  {
    if units == [] then [] else units[0] + Concat(units[1..])
  }

  predicate NoNewlines(lines: seq<string>)
  {
    forall i :: 0 <= i < |lines| ==> '\n' !in lines[i]
  }

  lemma {:induction false} NoNewlinesConcat(units: seq<seq<string>>)
    ensures NoNewlines(Concat(units)) <==> forall k :: 0 <= k < |units| ==> NoNewlines(units[k])
  {
    if units != [] {
      NoNewlinesConcat(units[1..]);
      var c := Concat(units);
      assert c == units[0] + Concat(units[1..]);
      assert forall k :: 1 <= k < |units| ==> units[k] == units[1..][k - 1];
      if NoNewlines(c) {
        assert forall i :: 0 <= i < |units[0]| ==> units[0][i] == c[i];
        assert forall i :: 0 <= i < |Concat(units[1..])| ==> Concat(units[1..])[i] == c[|units[0]| + i];
      }
    }
  }

  /**
   * What `ast.parse` is relied on for: the first line of each top-level
   * statement (the earliest decorator for decorated definitions) lies
   * within the code, and the statements come in order.
   */
  predicate ValidStarts(starts: seq<int>, n: nat)
  {
    (forall i :: 0 <= i < |starts| ==> 1 <= starts[i] <= n)
    && (forall i :: 1 <= i < |starts| ==> starts[i - 1] <= starts[i])
  }

  /** `indices[i]`: the first statement takes the lines from the top (its leading comments), the others start at their line. */
  function Cut(starts: seq<int>, i: nat): int
    requires i < |starts|
  {
    if i == 0 then 0 else starts[i] - 1
  }

  /** The slice ends of `zip_offset(indices, indices, offsets=(0, 1), longest=True)`. */
  function CutEnd(starts: seq<int>, i: nat, n: nat): int
    requires i < |starts|
  {
    if i + 1 < |starts| then Cut(starts, i + 1) else n
  }

  /** Consecutive statements start on different lines (after the first is moved to the top). */
  predicate Separated(starts: seq<int>)
  {
    forall i :: 1 <= i < |starts| ==> CutsApart(starts, i)
  }

  /** Statement `i` is cut below statement `i - 1`. */
  predicate CutsApart(starts: seq<int>, i: nat)
    requires 1 <= i < |starts|
  {
    Cut(starts, i - 1) < Cut(starts, i)
  }

  /** The lines of statement `i`: from its cut up to the next statement's cut, or to the end. */
  function Piece(lines: seq<string>, starts: seq<int>, i: nat): seq<string>
    requires ValidStarts(starts, |lines|) && i < |starts|
  {
    lines[Cut(starts, i)..CutEnd(starts, i, |lines|)]
  }

  function Slices(lines: seq<string>, starts: seq<int>, i: nat): (r: seq<seq<string>>)
    requires ValidStarts(starts, |lines|) && i <= |starts|
    ensures |r| == |starts| - i
    ensures i < |starts| ==> Concat(r) == lines[Cut(starts, i)..]
    decreases |starts| - i
  {
    if i == |starts| then []
    else
      var unit := Piece(lines, starts, i);
      var rest := Slices(lines, starts, i + 1);
      assert i + 1 < |starts| ==> lines[Cut(starts, i)..] == unit + lines[Cut(starts, i + 1)..];
      [unit] + rest
  }

  /** Piece `k - i` is the lines of statement `k`. */
  lemma {:induction false} SlicesAt(lines: seq<string>, starts: seq<int>, i: nat)
    requires ValidStarts(starts, |lines|) && i <= |starts|
    ensures forall k :: i <= k < |starts| ==> Slices(lines, starts, i)[k - i] == Piece(lines, starts, k)
    decreases |starts| - i
  {
    if i < |starts| {
      SlicesAt(lines, starts, i + 1);
      var r := Slices(lines, starts, i);
      var rest := Slices(lines, starts, i + 1);
      assert r == [Piece(lines, starts, i)] + rest;
      forall k | i < k < |starts| ensures r[k - i] == Piece(lines, starts, k) {
        assert r[k - i] == rest[k - (i + 1)];
      }
    }
  }

  /** A statement's lines are empty exactly when the next statement is cut at the same line. */
  lemma PieceEmpty(lines: seq<string>, starts: seq<int>, i: nat)
    requires ValidStarts(starts, |lines|) && i < |starts|
    ensures Piece(lines, starts, i) == [] <==> i + 1 < |starts| && !CutsApart(starts, i + 1)
  {
  }

  /**
   * `split_by_statement`: the lines of the code cut before the first line
   * of every top-level statement but the first; no statement, one piece.
   */
  function SplitByStatement(code: string, starts: seq<int>): (units: seq<seq<string>>)
    requires ValidStarts(starts, |Split(code)|)
    ensures Concat(units) == Split(code)
    ensures |units| == if starts == [] then 1 else |starts|
    ensures starts != [] ==> forall k :: 0 <= k < |units| ==> units[k] == Piece(Split(code), starts, k)
    ensures (forall k :: 0 <= k < |units| ==> units[k] != []) <==> Separated(starts)
  {
    var lines := Split(code);
    if starts == [] then
      assert Concat([lines]) == lines + [];
      [lines]
    else
      var units := Slices(lines, starts, 0);
      SlicesAt(lines, starts, 0);
      forall k | 0 <= k < |units| ensures units[k] == [] <==> k + 1 < |starts| && !CutsApart(starts, k + 1) {
        PieceEmpty(lines, starts, k);
      }
      assert (forall k :: 0 <= k < |units| ==> units[k] != []) <==> Separated(starts) by {
        if !Separated(starts) {
          var k :| 1 <= k < |starts| && !CutsApart(starts, k);
          assert units[k - 1] == [];
        }
      }
      units
  }

  // --------------------------------------------------------------- reformatting

  predicate IsComment(line: string)
  {
    StartsWith(LStrip(line), "#")
  }

  predicate IsDecorator(line: string)
  {
    StartsWith(LStrip(line), "@")
  }

  predicate IsDecoration(line: string)
  {
    IsComment(line) || IsDecorator(line)
  }

  /** `block_start_re`: text free of `#` and `:`, a colon, and then nothing or only a comment. */
  predicate BlockStart(line: string)
  {
    var k := Find(line, ":");
    k > 0 && '#' !in line[..k]
    && (var after := line[k + 1..]; after == "" || StartsWith(LStrip(after), "#"))
  }

  /** `is_block`: the first line that is neither a comment nor a decorator (or "") opens a block. */
  predicate IsBlock(lines: seq<string>)
  {
    var rest := lines[Run(lines, IsDecoration)..];
    BlockStart(if rest == [] then "" else rest[0])
  }

  /** `drop_while` over a peekable: what is left after the leading items that satisfy `p`. */
  method DropWhile<T>(items: seq<T>, p: T -> bool) returns (rest: seq<T>)
    ensures rest == items[Run(items, p)..]
  {
    var peekable := new Peekable(items);
    while true
      invariant peekable.Valid()
      invariant |peekable.Remaining()| <= |items|
      invariant peekable.Remaining() == items[|items| - |peekable.Remaining()|..]
      invariant forall i :: 0 <= i < |items| - |peekable.Remaining()| ==> p(items[i])
      decreases |peekable.Remaining()|
    {
      var current := peekable.Peek();
      if current.None? || !p(current.value) {
        break;
      }
      var _ := peekable.Next();
    }
    rest := peekable.Remaining();
    RunUnique(items, p, |items| - |rest|);
  }

  /** `add_prompt`: an empty line gets the bare prompt, any other line the prompt and a space. */
  function AddPrompt(prompt: string, line: string): string
  {
    if line == "" then prompt else prompt + " " + line
  }

  function AddPrompts(prompt: string, lines: seq<string>): (r: seq<string>)
    ensures |r| == |lines|
    ensures forall i :: 0 <= i < |lines| ==> r[i] == AddPrompt(prompt, lines[i])
  {
    if lines == [] then [] else [AddPrompt(prompt, lines[0])] + AddPrompts(prompt, lines[1..])
  }

  /** A block gets an empty line after it, which closes it in a doctest session. */
  function Extended(lines: seq<string>): seq<string>
  {
    if IsBlock(lines) then lines + [""] else lines
  }

  /** `reformat_code_unit`: the first line gets `>>>`, every other line `...`. */
  function PromptUnit(lines: seq<string>): (r: seq<string>)
    requires lines != []
    ensures |r| == |Extended(lines)|
  {
    var ls := Extended(lines);
    [AddPrompt(Prompt, ls[0])] + AddPrompts(ContinuationPrompt, ls[1..])
  }

  /**
   * Where the prompts go: `>>>` on the statement's first line, `...` on
   * every line after it, including the empty line a block receives.
   */
  lemma PromptUnitLines(lines: seq<string>)
    requires lines != []
    ensures var r := PromptUnit(lines);
      && r[0] == AddPrompt(Prompt, lines[0])
      && forall i :: 1 <= i < |r| ==> r[i] == AddPrompt(ContinuationPrompt, Extended(lines)[i])
  {
    var ls := Extended(lines);
    assert ls[0] == lines[0];
    var r := PromptUnit(lines);
    assert forall i :: 1 <= i < |r| ==> r[i] == AddPrompt(ContinuationPrompt, ls[1..][i - 1]);
    assert forall i :: 1 <= i < |r| ==> ls[1..][i - 1] == ls[i];
  }

  predicate NonEmptyUnits(units: seq<seq<string>>)
  {
    forall k :: 0 <= k < |units| ==> units[k] != []
  }

  function PromptUnits(units: seq<seq<string>>): (r: seq<seq<string>>)
    requires NonEmptyUnits(units)
    ensures |r| == |units|
    ensures forall k :: 0 <= k < |units| ==> r[k] == PromptUnit(units[k])
  {
    if units == [] then [] else [PromptUnit(units[0])] + PromptUnits(units[1..])
  }

  function ExtendAll(units: seq<seq<string>>): (r: seq<seq<string>>)
    ensures |r| == |units|
    ensures forall k :: 0 <= k < |units| ==> r[k] == Extended(units[k])
  {
    if units == [] then [] else [Extended(units[0])] + ExtendAll(units[1..])
  }

  /** The message of the `ValueError` `more_itertools.first` raises on an empty iterable. */
  const FirstOfEmpty: string := "first() was called on an empty iterable, and no default value was provided."

  /**
   * `reformatting_func`: the original quotes are restored in the code
   * (stripped on the right), the result is split into statements and each
   * statement is prompted. `tokens` are the string tokens of the stripped
   * code and `starts` the statements' first lines in the restored code.
   * A statement sharing its line with the one before it leaves an empty
   * piece, and prompting that piece raises.
   */
  function Reformat(code: string, q: Option<Quotes>, tokens: seq<Token>, starts: seq<int>): (r: Result<string>)
    requires LocatesAll(RStrip(code), tokens)
    requires ValidStarts(starts, |Split(Restore(RStrip(code), tokens, q))|)
    ensures r.Err? <==> !Separated(starts)
    ensures r.Err? ==> r.error == ValueError(FirstOfEmpty)
  {
    var units := SplitByStatement(Restore(RStrip(code), tokens, q), starts);
    if !NonEmptyUnits(units) then Err(ValueError(FirstOfEmpty))
    else Ok(Join(Concat(PromptUnits(units))))
  }

  /** Prompting a line and removing its prompt again gives the line back. */
  lemma RemoveAddPrompt(prompt: string, line: string)
    requires prompt == Prompt || prompt == ContinuationPrompt
    ensures HasPrompt(AddPrompt(prompt, line))
    ensures RemovePrompt(AddPrompt(prompt, line)) == line
  {
    var a := AddPrompt(prompt, line);
    if line == "" {
      assert !StartsWith(a, ">>> ") && !StartsWith(a, "... ");
      assert LinePrompt(a) == prompt;
    } else {
      assert a[..4] == prompt + " ";
      assert LinePrompt(a) == prompt + " ";
      assert a[4..] == line;
    }
  }

  /** Extraction undoes the prompting of one statement, keeping the blank line a block gets. */
  lemma PromptUnitExtract(lines: seq<string>)
    requires lines != []
    ensures AllPrompted(PromptUnit(lines))
    ensures RemovePrompts(PromptUnit(lines)) == Extended(lines)
  {
    var ls := Extended(lines);
    var r := PromptUnit(lines);
    forall i | 0 <= i < |r| ensures HasPrompt(r[i]) && RemovePrompt(r[i]) == ls[i] {
      if i == 0 {
        RemoveAddPrompt(Prompt, ls[0]);
      } else {
        assert r[i] == AddPrompt(ContinuationPrompt, ls[1..][i - 1]);
        RemoveAddPrompt(ContinuationPrompt, ls[i]);
      }
    }
  }

  lemma RemovePromptsAppend(a: seq<string>, b: seq<string>)
    ensures RemovePrompts(a + b) == RemovePrompts(a) + RemovePrompts(b)
    ensures AllPrompted(a) && AllPrompted(b) ==> AllPrompted(a + b)
  {
    assert forall i :: |a| <= i < |a + b| ==> (a + b)[i] == b[i - |a|];
  }

  lemma ConcatCons(units: seq<seq<string>>)
    requires units != []
    ensures Concat(units) == units[0] + Concat(units[1..])
  {
  }

  lemma {:induction false} PromptUnitsExtract(units: seq<seq<string>>)
    requires NonEmptyUnits(units)
    ensures AllPrompted(Concat(PromptUnits(units)))
    ensures RemovePrompts(Concat(PromptUnits(units))) == Concat(ExtendAll(units))
  {
    if units != [] {
      var tail := units[1..];
      assert NonEmptyUnits(tail) by {
        assert forall k :: 1 <= k < |units| ==> units[k] == tail[k - 1];
      }
      PromptUnitsExtract(tail);
      PromptUnitExtract(units[0]);
      var pu := PromptUnits(units);
      var eu := ExtendAll(units);
      assert pu[1..] == PromptUnits(tail);
      assert eu[1..] == ExtendAll(tail);
      ConcatCons(pu);
      ConcatCons(eu);
      RemovePromptsAppend(PromptUnit(units[0]), Concat(PromptUnits(tail)));
    }
  }

  lemma AddPromptNoNewline(prompt: string, line: string)
    requires prompt == Prompt || prompt == ContinuationPrompt
    requires '\n' !in line
    ensures '\n' !in AddPrompt(prompt, line)
  {
    if line != "" {
      var a := prompt + " " + line;
      forall i | 0 <= i < |a| ensures a[i] != '\n' {
        if i >= 4 {
          assert a[i] == line[i - 4];
        }
      }
    }
  }

  lemma ExtendedNoNewlines(lines: seq<string>)
    requires NoNewlines(lines)
    ensures NoNewlines(Extended(lines))
  {
    assert forall i :: 0 <= i < |lines| ==> (lines + [""])[i] == lines[i];
  }

  lemma PromptUnitNoNewlines(lines: seq<string>)
    requires lines != [] && NoNewlines(lines)
    ensures NoNewlines(PromptUnit(lines))
  {
    var ls := Extended(lines);
    ExtendedNoNewlines(lines);
    var r := PromptUnit(lines);
    PromptUnitLines(lines);
    forall i | 0 <= i < |r| ensures '\n' !in r[i] {
      if i > 0 {
        AddPromptNoNewline(ContinuationPrompt, ls[i]);
      } else {
        AddPromptNoNewline(Prompt, lines[0]);
      }
    }
  }

  lemma PromptedLinesNoNewlines(units: seq<seq<string>>)
    requires NonEmptyUnits(units)
    requires NoNewlines(Concat(units))
    ensures NoNewlines(Concat(PromptUnits(units)))
  {
    NoNewlinesConcat(units);
    var pu := PromptUnits(units);
    forall k | 0 <= k < |pu| ensures NoNewlines(pu[k]) {
      PromptUnitNoNewlines(units[k]);
    }
    NoNewlinesConcat(pu);
  }

  /**
   * The lines of the reformatted code are the prompted lines of the
   * statements, statement after statement.
   */
  lemma ReformatLines(code: string, q: Option<Quotes>, tokens: seq<Token>, starts: seq<int>)
    requires LocatesAll(RStrip(code), tokens)
    requires ValidStarts(starts, |Split(Restore(RStrip(code), tokens, q))|)
    requires Separated(starts)
    ensures var units := SplitByStatement(Restore(RStrip(code), tokens, q), starts);
      && Reformat(code, q, tokens, starts).Ok?
      && Split(Reformat(code, q, tokens, starts).value) == Concat(PromptUnits(units))
  {
    var units := SplitByStatement(Restore(RStrip(code), tokens, q), starts);
    PromptedLinesNoNewlines(units);
    SplitJoin(Concat(PromptUnits(units)));
  }

  /**
   * Extracting what reformatting produced gives back the restored code, one
   * line per line, with the empty line each block received.
   */
  lemma ReformatThenExtract(code: string, q: Option<Quotes>, tokens: seq<Token>, starts: seq<int>,
                            tokenize: string -> seq<Token>)
    requires LocatesAll(RStrip(code), tokens)
    requires ValidStarts(starts, |Split(Restore(RStrip(code), tokens, q))|)
    requires Separated(starts)
    ensures Reformat(code, q, tokens, starts).Ok?
    ensures var units := SplitByStatement(Restore(RStrip(code), tokens, q), starts);
      var e := Extract(Reformat(code, q, tokens, starts).value, tokenize);
      e.Ok? && Split(e.value.1) == Concat(ExtendAll(units))
  {
    var units := SplitByStatement(Restore(RStrip(code), tokens, q), starts);
    var prompted := Concat(PromptUnits(units));
    PromptUnitsExtract(units);
    PromptedLinesNoNewlines(units);
    assert prompted != [] by {
      assert Concat(PromptUnits(units)) == PromptUnit(units[0]) + Concat(PromptUnits(units)[1..]);
    }
    SplitJoin(prompted);
    var e := Extract(Join(prompted), tokenize);
    assert e.Ok?;
    NoNewlineAfterRemoval(prompted);
    SplitJoin(RemovePrompts(prompted));
  }

  /**
   * Without blocks and without quotes to restore, extraction gives back the
   * reformatted code exactly (stripped on the right).
   */
  lemma ReformatThenExtractPlain(code: string, tokens: seq<Token>, starts: seq<int>,
                                 tokenize: string -> seq<Token>)
    requires LocatesAll(RStrip(code), tokens)
    requires ValidStarts(starts, |Split(RStrip(code))|)
    requires Separated(starts)
    requires forall k :: 0 <= k < |SplitByStatement(RStrip(code), starts)| ==> !IsBlock(SplitByStatement(RStrip(code), starts)[k])
    ensures Reformat(code, None, tokens, starts).Ok?
    ensures Extract(Reformat(code, None, tokens, starts).value, tokenize) ==
      Ok((Params(PromptLength, DetectQuotes(tokenize(RStrip(code)))), RStrip(code)))
  {
    var units := SplitByStatement(RStrip(code), starts);
    ReformatThenExtract(code, None, tokens, starts, tokenize);
    assert ExtendAll(units) == units;
    var out := Reformat(code, None, tokens, starts).value;
    var e := Extract(out, tokenize);
    assert Split(e.value.1) == Split(RStrip(code));
    JoinSplit(RStrip(code));
    JoinSplit(e.value.1);
  }
}
