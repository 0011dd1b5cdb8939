/**
 * The fenced Markdown / MyST notation: a block opened by three backticks or
 * colons tagged `python` (optionally in braces) and closed by a line holding
 * the same fence string and nothing else.
 */
module Markdown {
  import opened Common
  import opened Text
  import opened Dedent
  import opened Stream
  import opened Protocol

  const Name: string := "markdown"
  const Language: string := "python"

  // ---------------------------------------------------------------- directive

  predicate IsPlainSpace(c: char)
  {
    c == ' '
  }

  predicate IsFenceChar(c: char)
  {
    c == '`' || c == ':'
  }

  /** A fence string as `[`:]{3}` matches it: three backticks or colons, in any mix. */
  predicate IsFences(f: string)
  {
    |f| == 3 && IsFenceChar(f[0]) && IsFenceChar(f[1]) && IsFenceChar(f[2])
  }

  /** The position after the whitespace run (`\s*`) starting at `i`. */
  function SkipSpace(s: string, i: nat): (j: nat)
    requires i <= |s|
    ensures i <= j <= |s|
    ensures forall t :: i <= t < j ==> IsSpace(s[t])
    ensures j == |s| || !IsSpace(s[j])
  {
    assert forall t :: i <= t < i + Run(s[i..], IsSpace) ==> s[t] == s[i..][t - i];
    i + Run(s[i..], IsSpace)
  }

  /** The groups of a directive match: the indent width, the fence string and where `python` ends. */
  datatype Directive = Directive(indent: nat, fences: string, end: nat)

  /**
   * `directive_re.match(line)`: spaces, a fence, optional whitespace, an
   * optional `{`, optional whitespace and `python`. Every part but the last
   * is forced (the characters each may take never start the next), so the
   * match is found without backtracking; the trailing `\s*\}?` always
   * matches, possibly empty.
   */
  function MatchDirective(line: string): (m: Option<Directive>)
  {
    var indent := Run(line, IsPlainSpace);
    if indent + 3 > |line| || !IsFences(line[indent..indent + 3]) then None
    else
      var a := SkipSpace(line, indent + 3);
      var b := if a < |line| && line[a] == '{' then a + 1 else a;
      var c := SkipSpace(line, b);
      if OccursAt(line, Language, c) then Some(Directive(indent, line[indent..indent + 3], c + 6))
      else None
  }

  /** `directive_re.fullmatch(line)`: after `python` only whitespace and at most one closing brace. */
  function FullMatchDirective(line: string): (m: Option<Directive>)
  {
    match MatchDirective(line)
    case None => None
    case Some(d) =>
      assert d.end <= |line|;
      var e := SkipSpace(line, d.end);
      if e == |line| || (e + 1 == |line| && line[e] == '}') then Some(d) else None
  }

  /** What a match says about the line: its indent, its fence and the language tag after it. */
  lemma MatchDirectiveShape(line: string)
    requires MatchDirective(line).Some?
    ensures var d := MatchDirective(line).value;
      d.indent + 3 <= |line| && IsFences(d.fences) && d.fences == line[d.indent..d.indent + 3]
      && (forall i :: 0 <= i < d.indent ==> line[i] == ' ')
      && d.indent + 3 + 6 <= d.end <= |line| && line[d.end - 6..d.end] == Language
  {
  }

  /** The opener `reformatting_func` writes is matched in full, with its fence and no indent. */
  lemma OpenerMatches(fences: string)
    requires IsFences(fences)
    ensures FullMatchDirective(fences + Language) == Some(Directive(0, fences, 9))
  {
    var line := fences + Language;
    assert line[0] == fences[0] && !IsPlainSpace(line[0]);
    assert Run(line, IsPlainSpace) == 0;
    assert line[0..3] == fences;
    assert !IsSpace(line[3]);
    assert SkipSpace(line, 3) == 3;
    assert line[3..9] == Language;
  }

  lemma OpenerNoNewline(fences: string)
    requires IsFences(fences)
    ensures '\n' !in fences && '\n' !in fences + Language
  {
    assert fences == [fences[0], fences[1], fences[2]];
    assert fences + Language == [fences[0], fences[1], fences[2], 'p', 'y', 't', 'h', 'o', 'n'];
  }

  // ---------------------------------------------------------------- detection

  /** The closing fence: the line, stripped, is the opening fence string. */
  predicate IsClosing(l: NumberedLine, fences: string)
  {
    Strip(l.1) == fences
  }

  /** The `continuation_lines` predicate: the line is not the closing fence. */
  function NotClosing(fences: string): NumberedLine -> bool
  {
    (l: NumberedLine) => !IsClosing(l, fences)
  }

  const NotContiguous: Error := RuntimeError("line numbers are not contiguous")

  /** Calling `.strip()` on the `None` that stands for the end of the stream. */
  const Unclosed: Error := AttributeError("'NoneType' object has no attribute 'strip'")

  const NoClosingFence: Error := RuntimeError("found a code block without closing fence")

  /** The fence string of the directive the first remaining line opens. */
  function OpeningFences(rem: seq<NumberedLine>): string
    requires rem != [] && MatchDirective(rem[0].1).Some?
  {
    MatchDirective(rem[0].1).value.fences
  }

  /**
   * The index of the closing fence: the first line after the opener whose
   * stripped text is the opening fence string, or `|rem|` when there is none.
   */
  function ClosingIndex(rem: seq<NumberedLine>, fences: string): (k: nat)
    requires rem != []
    ensures 1 <= k <= |rem|
    ensures forall i :: 1 <= i < k ==> NotClosing(fences)(rem[i])
    ensures k == |rem| || !NotClosing(fences)(rem[k])
  {
    RunAfterFirst(rem, NotClosing(fences));
    1 + Run(rem[1..], NotClosing(fences))
  }

  /**
   * What `detection_func` does to the remaining lines: it declines unless
   * the current line matches the directive; otherwise it takes the opener,
   * every line up to the closing fence and the closing fence. A block that
   * runs to the end of the stream fails, and the stream is then used up.
   * The claimed range ends two past the last line. (The check that the line
   * after the body is the closing fence cannot fail: the body ends there
   * precisely because it is.)
   */
  function DetectSpec(rem: seq<NumberedLine>): (s: Step)
    ensures Sound(rem, s, Name, 1)
    ensures s.detection.Declined? <==> rem == [] || MatchDirective(rem[0].1).None?
    ensures s.detection.Failed? ==>
      (s.detection.error == Unclosed && s.rest == []) || s.detection.error == NotContiguous
  {
    if rem == [] || MatchDirective(rem[0].1).None? then Step(Declined, 0, rem)
    else BlockSpec(rem, OpeningFences(rem))
  }

  /** The block an opener with fence string `fences` starts: claimed through its closing fence, or failed. */
  function BlockSpec(rem: seq<NumberedLine>, fences: string): (s: Step)
    requires rem != []
    ensures Sound(rem, s, Name, 1)
    ensures !s.detection.Declined?
    ensures s.detection.Failed? ==>
      (s.detection.error == Unclosed && s.rest == []) || s.detection.error == NotContiguous
  {
    var k := ClosingIndex(rem, fences);
    if k == |rem| then UnclosedStep(rem) else ClosedStep(rem, k + 1)
  }

  /** A block without a closing fence: the stream is used up and the block fails. */
  function UnclosedStep(rem: seq<NumberedLine>): (s: Step)
    ensures Sound(rem, s, Name, 1) && s.detection == Failed(Unclosed) && s.rest == []
  {
    FailedSound(rem, Unclosed, Name, 1);
    Step(Failed(Unclosed), 0, [])
  }

  /** A block claimed through its closing fence, the `k`-th line. */
  function ClosedStep(rem: seq<NumberedLine>, k: nat): (s: Step)
    requires 1 <= k <= |rem|
    ensures Sound(rem, s, Name, 1) && !s.detection.Declined?
    ensures s.detection.Failed? ==> s.detection.error == NotContiguous
  {
    ClaimSound(rem, k, Name, 1, NotContiguous);
    Step(Claim(rem[..k], Name, 1, NotContiguous), k, rem[k..])
  }

  /** `DetectSpec` once the opener matches, as the block it starts. */
  lemma DetectBlock(rem: seq<NumberedLine>)
    requires rem != [] && MatchDirective(rem[0].1).Some?
    ensures DetectSpec(rem) == BlockSpec(rem, OpeningFences(rem))
  {
  }

  /** The two outcomes of `BlockSpec`. */
  lemma BlockOutcome(rem: seq<NumberedLine>, fences: string)
    requires rem != []
    ensures var k := ClosingIndex(rem, fences);
      BlockSpec(rem, fences) == if k == |rem| then Step(Failed(Unclosed), 0, [])
        else Step(Claim(rem[..k + 1], Name, 1, NotContiguous), k + 1, rem[k + 1..])
  {
  }

  /**
   * A claim is the opener, the lines that are not the closing fence and the
   * first line that is; a block fails for want of a closing fence exactly
   * when no later line is one.
   */
  lemma DetectTakesBlock(rem: seq<NumberedLine>)
    requires !DetectSpec(rem).detection.Declined?
    ensures var s, fences := DetectSpec(rem), OpeningFences(rem);
      (s.detection.Claimed? ==>
        s.claimed == |rem| - |s.rest| && s.claimed >= 2
        && (forall i :: 1 <= i < s.claimed - 1 ==> !IsClosing(rem[i], fences))
        && IsClosing(rem[s.claimed - 1], fences))
      && (s.detection == Failed(Unclosed) <==> forall i :: 1 <= i < |rem| ==> !IsClosing(rem[i], fences))
  {
    var fences := OpeningFences(rem);
    var k := ClosingIndex(rem, fences);
    forall i | 1 <= i < k ensures !IsClosing(rem[i], fences) {
      assert NotClosing(fences)(rem[i]);
    }
    if k < |rem| {
      assert !NotClosing(fences)(rem[k]);
      assert DetectSpec(rem).claimed == k + 1;
    }
  }

  /** `continuation_lines`: the lines up to, and not including, the closing fence. */
  method ContinuationLines(lines: Peekable<NumberedLine>, indent: nat, fences: string)
    returns (taken: seq<NumberedLine>)
    requires lines.Valid()
    modifies lines
    ensures lines.Valid()
    ensures var k := Run(old(lines.Remaining()), NotClosing(fences));
      taken == old(lines.Remaining())[..k] && lines.Remaining() == old(lines.Remaining())[k..]
  {
    taken := TakeWhile(lines, NotClosing(fences));
  }

  /** The two outcomes of `DetectSpec` once the opener matches. */
  lemma DetectOutcome(rem: seq<NumberedLine>)
    requires rem != [] && MatchDirective(rem[0].1).Some?
    ensures var k := ClosingIndex(rem, OpeningFences(rem));
      DetectSpec(rem) == if k == |rem| then Step(Failed(Unclosed), 0, [])
        else Step(Claim(rem[..k + 1], Name, 1, NotContiguous), k + 1, rem[k + 1..])
  {
    DetectBlock(rem);
    BlockOutcome(rem, OpeningFences(rem));
  }

  /** `detection_func`. */
  method Detect(lines: Peekable<NumberedLine>) returns (r: Detection)
    requires lines.Valid()
    modifies lines
    ensures lines.Valid()
    ensures r == DetectSpec(old(lines.Remaining())).detection
    ensures lines.Remaining() == DetectSpec(old(lines.Remaining())).rest
  {
    ghost var start := lines.Remaining();
    var head := lines.Peek();
    if head.None? {
      assert DetectSpec(start) == Step(Declined, 0, start);
      return Declined;
    }
    var m := MatchDirective(head.value.1);
    if m.None? {
      assert DetectSpec(start) == Step(Declined, 0, start);
      return Declined;
    }
    var startLine := lines.Next();
    assert start == [startLine.value] + lines.Remaining();
    r := ReadBlock(lines, startLine.value, m.value.indent, m.value.fences);
  }

  /**
   * The part of `detection_func` after the opener has been taken: the body,
   * the check for the closing fence and the claim.
   */
  method ReadBlock(lines: Peekable<NumberedLine>, opener: NumberedLine, indent: nat, fences: string)
    returns (r: Detection)
    requires lines.Valid()
    requires MatchDirective(opener.1).Some? && fences == MatchDirective(opener.1).value.fences
    modifies lines
    ensures lines.Valid()
    ensures r == DetectSpec([opener] + old(lines.Remaining())).detection
    ensures lines.Remaining() == DetectSpec([opener] + old(lines.Remaining())).rest
  {
    ghost var start := [opener] + lines.Remaining();
    ghost var k := ClosingIndex(start, fences);
    DetectOutcome(start);
    assert start[1..] == lines.Remaining();
    var content := ContinuationLines(lines, indent, fences);
    TailSlices(start, k);
    var stop := lines.Peek();
    if stop.None? {
      return Failed(Unclosed);
    }
    if !IsClosing(stop.value, fences) {
      // the body ended at this line because it is the closing fence
      assert false;
      return Failed(NoClosingFence);
    }
    var closing := lines.Next();
    var detected := [opener] + content + [closing.value];
    Reassemble(start, k);
    r := Claim(detected, Name, 1, NotContiguous);
  }

  // --------------------------------------------------------------- extraction

  /** The parameters extraction hands to reformatting. */
  datatype Params = Params(fences: string, language: string, promptLength: nat)

  /**
   * `extraction_func`: the first line must match the directive in full and
   * at least one line must follow it; the last line (the closing fence) is
   * dropped and the lines between are dedented. The indent of the first line
   * after the opener is recorded as the prompt length.
   */
  function Extract(code: string): (r: Result<(Params, string)>)
    ensures r.Err? <==> FullMatchDirective(Split(code)[0]).None? || |Split(code)| == 1
    ensures r.Err? && FullMatchDirective(Split(code)[0]).None? ==>
      r.error == InvalidFormatError("misformatted code block:\n" + code)
    ensures r.Err? && FullMatchDirective(Split(code)[0]).Some? ==>
      r.error == InvalidFormatError("misformatted code block: could not find any code")
    ensures r.Ok? ==>
      r.value.0.fences == FullMatchDirective(Split(code)[0]).value.fences
      && r.value.0.language == Language
      && r.value.0.promptLength == IndentWidth(Split(code)[1])
  {
    var lines := Split(code);
    var m := FullMatchDirective(lines[0]);
    if m.None? then Err(InvalidFormatError("misformatted code block:\n" + code))
    else if |lines| == 1 then Err(InvalidFormatError("misformatted code block: could not find any code"))
    else
      var body := lines[1..];
      Ok((Params(m.value.fences, Language, IndentWidth(body[0])), DedentText(Join(body[..|body| - 1]))))
  }

  /** `reformatting_func`: the opener, the code and the closing fence, one per line. */
  function Reformat(code: string, language: string, fences: string): string
  {
    Join([fences + language, code, fences])
  }

  /**
   * Extracting a reformatted block gives the code back, dedented, together
   * with its fence and the indent of its first line.
   */
  lemma ReformatThenExtract(code: string, fences: string)
    requires IsFences(fences)
    ensures Extract(Reformat(code, Language, fences))
      == Ok((Params(fences, Language, IndentWidth(Split(code)[0])), DedentText(code)))
  {
    var opener := fences + Language;
    var block := Reformat(code, Language, fences);
    SplitReformat(code, fences);
    OpenerMatches(fences);
    ExtractOf(block);
    var lines := Split(block);
    assert lines[1..|lines| - 1] == Split(code);
    JoinSplit(code);
  }

  /** The lines of a reformatted block: the opener, the lines of the code, the closing fence. */
  lemma SplitReformat(code: string, fences: string)
    requires IsFences(fences)
    ensures Split(Reformat(code, Language, fences)) == [fences + Language] + Split(code) + [fences]
  {
    var opener := fences + Language;
    Join3(opener, code, fences);
    SplitAppend(opener, code + "\n" + fences);
    SplitAppend(code, fences);
    OpenerNoNewline(fences);
    SplitNoNewline(opener);
    SplitNoNewline(fences);
  }

  /** `Extract` on a block whose opener matches and that has a line after it. */
  lemma ExtractOf(code: string)
    requires FullMatchDirective(Split(code)[0]).Some? && |Split(code)| >= 2
    ensures var lines, m := Split(code), FullMatchDirective(Split(code)[0]).value;
      Extract(code) == Ok((Params(m.fences, Language, IndentWidth(lines[1])), DedentText(Join(lines[1..|lines| - 1]))))
  {
    TailSlices(Split(code), |Split(code)| - 1);
  }

  /** Lines joined, with those between the first and the last joined first. */
  lemma JoinMiddle(lines: seq<string>)
    requires |lines| >= 3
    ensures Join([lines[0], Join(lines[1..|lines| - 1]), lines[|lines| - 1]]) == Join(lines)
  {
    var middle := lines[1..|lines| - 1];
    assert lines == [lines[0]] + (middle + [lines[|lines| - 1]]);
    JoinAppend([lines[0]], middle + [lines[|lines| - 1]]);
    JoinAppend(middle, [lines[|lines| - 1]]);
    Join3(lines[0], Join(middle), lines[|lines| - 1]);
  }

  /**
   * A block whose opener is exactly a fence and `python`, whose last line is
   * the fence alone and whose code is already dedented comes back unchanged
   * from extraction followed by reformatting.
   */
  lemma ExtractThenReformat(code: string, fences: string)
    requires IsFences(fences)
    requires |Split(code)| >= 3
    requires Split(code)[0] == fences + Language && Split(code)[|Split(code)| - 1] == fences
    requires var lines := Split(code); DedentText(Join(lines[1..|lines| - 1])) == Join(lines[1..|lines| - 1])
    ensures Extract(code).Ok? && Extract(code).value.0.fences == fences
    ensures Reformat(Extract(code).value.1, Extract(code).value.0.language, fences) == code
  {
    OpenerMatches(fences);
    ExtractOf(code);
    JoinMiddle(Split(code));
    JoinSplit(code);
  }
}
