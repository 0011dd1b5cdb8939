/**
 * The IPython format: an `In [n]: ` prompt line followed by `...: `
 * continuation lines aligned with the end of the prompt. Extraction removes
 * the prompts and turns magics (`%`, `!` and `@decorator args` lines) into
 * comments so that the code parses; reformatting undoes both.
 */
module IPython {
  import opened Common
  import opened Text
  import opened Stream
  import opened Protocol

  const Name: string := "ipython"
  const ContinuationTemplate: string := "...: "
  const MagicComment: string := "<ipython-magic>"
  /** What `hide_magic` puts before a magic: `f"# {magic_comment}"`. */
  const MagicPrefix: string := "# <ipython-magic>"

  predicate IsBlankChar(c: char)
  {
    c == ' '
  }

  /** A match of `prompt_re`: the indent, the whole prompt and the digits of the count. */
  datatype PromptMatch = PromptMatch(indent: nat, prompt: string, count: string)

  /** `prompt_re.match(line)`: `^([ ]*)(In \[(\d+)\]: )`, counting ASCII digits. */
  function MatchPrompt(line: string): (r: Option<PromptMatch>)
  {
    var i := Run(line, IsBlankChar);
    var rest := line[i..];
    if !StartsWith(rest, "In [") then None
    else
      var d := Run(rest[4..], IsDigit);
      if d == 0 || !StartsWith(rest[4 + d..], "]: ") then None
      else Some(PromptMatch(i, rest[..4 + d + 3], rest[4..4 + d]))
  }

  /** What a prompt match consists of: spaces, `In [`, digits, `]: `. */
  lemma MatchPromptShape(line: string)
    requires MatchPrompt(line).Some?
    ensures var m := MatchPrompt(line).value;
      m.indent + |m.prompt| <= |line| && line[..m.indent] == Spaces(m.indent)
      && m.prompt == "In [" + m.count + "]: " && line[m.indent..m.indent + |m.prompt|] == m.prompt
      && |m.count| >= 1 && AllDigits(m.count)
  {
    var i := Run(line, IsBlankChar);
    var rest := line[i..];
    var d := Run(rest[4..], IsDigit);
    assert line[..i] == Spaces(i);
    assert rest[..4 + d + 3] == "In [" + rest[4..4 + d] + "]: ";
  }

  /** `continuation_prompt_re.match(line)`: `^([ ]*)\.\.\.: `, giving the indent. */
  function MatchContinuation(line: string): (r: Option<nat>)
  {
    var i := Run(line, IsBlankChar);
    if StartsWith(line[i..], ContinuationTemplate) then Some(i) else None
  }

  /** A continuation line of a prompt with this indent and prompt length. */
  predicate Continues(l: NumberedLine, indent: int, promptLength: int)
  {
    var m := MatchContinuation(l.1);
    m.Some? && m.value - promptLength + 5 == indent
  }

  function ContinuationOf(indent: int, promptLength: int): NumberedLine -> bool
  {
    l => Continues(l, indent, promptLength)
  }

  // ---------------------------------------------------------------- detection

  /**
   * `detection_func` as a specification: a prompt line and the continuation
   * lines after it whose `...: ` ends where the prompt ends.
   */
  function DetectSpec(rem: seq<NumberedLine>): (s: Step)
    ensures Sound(rem, s, Name, 0)
    ensures s.detection.Declined? <==> rem == [] || MatchPrompt(rem[0].1).None?
    ensures !s.detection.Declined? ==>
      s.claimed <= |rem| && (s.detection.Claimed? <==> Contiguous(rem[..s.claimed]))
      && (s.detection.Failed? ==> s.detection.error == NotContiguous)
  {
    if rem == [] || MatchPrompt(rem[0].1).None? then Step(Declined, 0, rem)
    else PromptSpec(rem, MatchPrompt(rem[0].1).value)
  }

  /** `DetectSpec` once the first line matches the prompt `m`. */
  function PromptSpec(rem: seq<NumberedLine>, m: PromptMatch): (s: Step)
    requires rem != []
    ensures Sound(rem, s, Name, 0)
    ensures !s.detection.Declined?
    ensures s.claimed <= |rem| && (s.detection.Claimed? <==> Contiguous(rem[..s.claimed]))
    ensures s.detection.Failed? ==> s.detection.error == NotContiguous
  {
    var k := 1 + Run(rem[1..], ContinuationOf(m.indent, |m.prompt|));
    ClaimSound(rem, k, Name, 0, NotContiguous);
    Step(Claim(rem[..k], Name, 0, NotContiguous), k, rem[k..])
  }

  const NotContiguous: Error := InvalidFormatError("line numbers are not contiguous")

  /**
   * A claim holds the prompt line and every continuation line after it,
   * up to the first line that does not continue the prompt.
   */
  lemma DetectTakesContinuations(rem: seq<NumberedLine>)
    requires !DetectSpec(rem).detection.Declined?
    ensures var s, m := DetectSpec(rem), MatchPrompt(rem[0].1).value;
      s.claimed == |rem| - |s.rest|
      && (forall i :: 1 <= i < s.claimed ==> Continues(rem[i], m.indent, |m.prompt|))
      && (s.rest == [] || !Continues(s.rest[0], m.indent, |m.prompt|))
  {
    var m := MatchPrompt(rem[0].1).value;
    var k := 1 + Run(rem[1..], ContinuationOf(m.indent, |m.prompt|));
    assert forall i :: 1 <= i < k ==> rem[i] == rem[1..][i - 1];
  }

  /**
   * The outcome once the head line has a prompt: `Claim` of the prompt line
   * and its continuation lines, that is `(first, last + 1)` with the lines
   * joined when their numbers are contiguous and "line numbers are not
   * contiguous" otherwise; the stream is left after the continuation lines
   * either way.
   */
  lemma DetectOutcome(rem: seq<NumberedLine>)
    requires rem != [] && MatchPrompt(rem[0].1).Some?
    ensures var m := MatchPrompt(rem[0].1).value;
      var k := 1 + Run(rem[1..], ContinuationOf(m.indent, |m.prompt|));
      k <= |rem| && DetectSpec(rem) == Step(Claim(rem[..k], Name, 0, NotContiguous), k, rem[k..])
  {
    var m := MatchPrompt(rem[0].1).value;
    assert DetectSpec(rem) == PromptSpec(rem, m);
  }

  /** `continuation_lines`: consumes the continuation lines of a prompt. */
  method ContinuationLines(lines: Peekable<NumberedLine>, indent: int, promptLength: int)
    returns (taken: seq<NumberedLine>)
    requires lines.Valid()
    modifies lines
    ensures lines.Valid()
    ensures var k := Run(old(lines.Remaining()), ContinuationOf(indent, promptLength));
      taken == old(lines.Remaining())[..k] && lines.Remaining() == old(lines.Remaining())[k..]
  {
    EndNotContinuation(indent, promptLength);
    taken := PeekWhile(lines, ContinuationOf(indent, promptLength), (-1, ""));
  }

  /** The end of the stream, read as an empty line, continues no prompt. */
  lemma EndNotContinuation(indent: int, promptLength: int)
    ensures !ContinuationOf(indent, promptLength)((-1, ""))
  {
    assert Run("", IsBlankChar) == 0;
    assert !StartsWith("", ContinuationTemplate);
  }

  /** `detection_func`. */
  method Detect(lines: Peekable<NumberedLine>) returns (r: Detection)
    requires lines.Valid()
    modifies lines
    ensures lines.Valid()
    ensures r == DetectSpec(old(lines.Remaining())).detection
    ensures lines.Remaining() == DetectSpec(old(lines.Remaining())).rest
  {
    ghost var start := lines.Remaining();
    var head := lines.Peek();
    var line := if head.None? then "" else head.value.1;
    var m := MatchPrompt(line);
    if m.None? {
      assert DetectSpec(start) == Step(Declined, 0, start);
      return Declined;
    }
    var indent, promptLength := m.value.indent, |m.value.prompt|;
    var first := lines.Next();
    ghost var k := 1 + Run(start[1..], ContinuationOf(indent, promptLength));
    var more := ContinuationLines(lines, indent, promptLength);
    ConsSplit(start, k);
    r := Claim([first.value] + more, Name, 0, NotContiguous);
  }

  // ------------------------------------------------------------------- magics

  predicate IsIdentifierStart(c: char)
  {
    'a' <= c <= 'z' || 'A' <= c <= 'Z' || c == '_'
  }

  predicate IsIdentifierChar(c: char)
  {
    IsIdentifierStart(c) || IsDigit(c)
  }

  /** `magic_re.match(s)`: a shell escape, a line or cell magic, or a decorator followed by arguments. */
  predicate IsMagic(s: string)
  {
    |s| >= 1 && (s[0] == '!' || s[0] == '%' || (s[0] == '@' && DecoratorWithArguments(s)))
  }

  /** `@[a-zA-Z_][a-zA-Z0-9_]* .+`: a name, a space and at least one more character. */
  predicate DecoratorWithArguments(s: string)
  {
    |s| >= 2 && IsIdentifierStart(s[1])
    && 2 + Run(s[2..], IsIdentifierChar) + 1 < |s| && s[2 + Run(s[2..], IsIdentifierChar)] == ' '
  }

  /** `comment_magic`: a magic line keeps its indentation, as spaces, and gets commented out. */
  function HideLine(line: string): string
  {
    var stripped := LStrip(line);
    if stripped == "" || !IsMagic(stripped) then line
    else Spaces(IndentWidth(line)) + MagicPrefix + stripped
  }

  /** `uncomment_magic`: a line holding the marker loses the 17 characters after its indentation. */
  function RevealLine(line: string): string
  {
    var stripped := LStrip(line);
    if !Contains(line, MagicComment) then line
    else Spaces(IndentWidth(line)) + (if |stripped| >= |MagicPrefix| then stripped[|MagicPrefix|..] else "")
  }

  function HideLines(lines: seq<string>): (r: seq<string>)
    ensures |r| == |lines|
    ensures forall i :: 0 <= i < |lines| ==> r[i] == HideLine(lines[i])
  {
    if lines == [] then [] else [HideLine(lines[0])] + HideLines(lines[1..])
  }

  function RevealLines(lines: seq<string>): (r: seq<string>)
    ensures |r| == |lines|
    ensures forall i :: 0 <= i < |lines| ==> r[i] == RevealLine(lines[i])
  {
    if lines == [] then [] else [RevealLine(lines[0])] + RevealLines(lines[1..])
  }

  /** `hide_magic`. */
  function HideMagic(code: string): string
  {
    Join(HideLines(Split(code)))
  }

  /** `reveal_magic`. */
  function RevealMagic(code: string): string
  {
    Join(RevealLines(Split(code)))
  }

  lemma MarkerInHidden(n: int, s: string)
    ensures Contains(Spaces(n) + MagicPrefix + s, MagicComment)
  {
    var h := Spaces(n) + MagicPrefix + s;
    assert OccursAt(h, MagicComment, |Spaces(n)| + 2);
  }

  /** Revealing a hidden magic line gives it back, provided it was indented with spaces only. */
  lemma RevealHideLine(line: string)
    requires IsMagic(LStrip(line)) ==> SpaceIndented(line)
    requires !IsMagic(LStrip(line)) ==> !Contains(line, MagicComment)
    ensures RevealLine(HideLine(line)) == line
  {
    var stripped := LStrip(line);
    if stripped != "" && IsMagic(stripped) {
      var n := IndentWidth(line);
      var h := Spaces(n) + MagicPrefix + stripped;
      LStripAfterSpaces(n, MagicPrefix + stripped);
      assert h == Spaces(n) + (MagicPrefix + stripped);
      MarkerInHidden(n, stripped);
      assert (MagicPrefix + stripped)[|MagicPrefix|..] == stripped;
      SpaceIndentedSplit(line);
    }
  }

  /**
   * A line as `hide_magic` leaves it: if it holds the marker, it is a
   * magic commented out behind indentation made of spaces; otherwise it is
   * not a magic.
   */
  predicate Hideable(line: string)
  {
    (Contains(line, MagicComment) ==>
       SpaceIndented(line) && StartsWith(LStrip(line), MagicPrefix) && IsMagic(LStrip(line)[|MagicPrefix|..]))
    && (!Contains(line, MagicComment) ==> !IsMagic(LStrip(line)))
  }

  /** Hiding a revealed line gives it back when it is in the form `hide_magic` produces. */
  lemma HideRevealLine(line: string)
    requires Hideable(line)
    ensures HideLine(RevealLine(line)) == line
  {
    if Contains(line, MagicComment) {
      HideRevealMarked(line);
    }
  }

  /** `HideRevealLine` for a line that holds the marker. */
  lemma HideRevealMarked(line: string)
    requires Contains(line, MagicComment) && Hideable(line)
    ensures HideLine(RevealLine(line)) == line
  {
    var n, m := IndentWidth(line), LStrip(line)[|MagicPrefix|..];
    RevealMarked(line);
    HideMagicLine(n, m);
    MarkedShape(line);
  }

  lemma RevealMarked(line: string)
    requires Contains(line, MagicComment) && StartsWith(LStrip(line), MagicPrefix)
    ensures RevealLine(line) == Spaces(IndentWidth(line)) + LStrip(line)[|MagicPrefix|..]
  {
  }

  /** A line that holds the marker, as `hide_magic` writes it. */
  lemma MarkedShape(line: string)
    requires SpaceIndented(line) && StartsWith(LStrip(line), MagicPrefix)
    ensures line == Spaces(IndentWidth(line)) + MagicPrefix + LStrip(line)[|MagicPrefix|..]
  {
    SpaceIndentedSplit(line);
    StartsWithSplit(LStrip(line), MagicPrefix);
  }

  /** `comment_magic` on a magic behind `n` spaces. */
  lemma HideMagicLine(n: int, m: string)
    requires IsMagic(m)
    ensures HideLine(Spaces(n) + m) == Spaces(n) + MagicPrefix + m
  {
    LStripAfterSpaces(n, m);
  }

  /** Per-line conditions under which `reveal_magic` undoes `hide_magic`. */
  predicate Revealable(line: string)
  {
    (IsMagic(LStrip(line)) ==> SpaceIndented(line))
    && (!IsMagic(LStrip(line)) ==> !Contains(line, MagicComment))
  }

  predicate RevealableLines(lines: seq<string>)
  {
    forall i :: 0 <= i < |lines| ==> Revealable(lines[i])
  }

  lemma RevealHide(code: string)
    requires RevealableLines(Split(code))
    ensures RevealMagic(HideMagic(code)) == code
  {
    var lines := Split(code);
    var hidden := HideLines(lines);
    HiddenNoNewlines(lines);
    SplitJoin(hidden);
    RevealHideLines(lines);
    JoinSplit(code);
  }

  lemma HiddenNoNewlines(lines: seq<string>)
    requires forall i :: 0 <= i < |lines| ==> '\n' !in lines[i]
    ensures forall i :: 0 <= i < |lines| ==> '\n' !in HideLines(lines)[i]
  {
    forall i | 0 <= i < |lines| ensures '\n' !in HideLines(lines)[i] {
      HideLineNoNewline(lines[i]);
    }
  }

  lemma RevealHideLines(lines: seq<string>)
    requires RevealableLines(lines)
    ensures RevealLines(HideLines(lines)) == lines
  {
    var revealed := RevealLines(HideLines(lines));
    forall i | 0 <= i < |lines| ensures revealed[i] == lines[i] {
      assert Revealable(lines[i]);
      RevealHideLine(lines[i]);
    }
  }

  lemma HideLineNoNewline(line: string)
    requires '\n' !in line
    ensures '\n' !in HideLine(line)
  {
    if HideLine(line) != line {
      CommentedNoNewline(line);
    }
  }

  lemma CommentedNoNewline(line: string)
    requires '\n' !in line
    ensures '\n' !in Spaces(IndentWidth(line)) + MagicPrefix + LStrip(line)
  {
    var n, stripped := IndentWidth(line), LStrip(line);
    assert stripped == line[n..];
    DropNoNewline(line, n);
    SpacesNoNewline(n);
    assert '\n' !in MagicPrefix;
  }

  lemma RevealLineNoNewline(line: string)
    requires '\n' !in line
    ensures '\n' !in RevealLine(line)
  {
    var n, stripped := IndentWidth(line), LStrip(line);
    assert stripped == line[n..];
    DropNoNewline(line, n);
    SpacesNoNewline(n);
    if |stripped| >= |MagicPrefix| {
      DropNoNewline(stripped, |MagicPrefix|);
    }
  }

  // ------------------------------------------------------- extraction, reformat

  /** `metadata`: the count of the line's prompt, when it starts with one. */
  function Metadata(line: string): Option<nat>
  {
    match MatchPrompt(line)
    case None => None
    case Some(m) => Some(DigitsValue(m.count))
  }

  /** `is_ipython`: a prompt line or a continuation line. */
  predicate IsIPython(line: string)
  {
    MatchPrompt(line).Some? || MatchContinuation(line).Some?
  }

  predicate AllIPython(lines: seq<string>)
  {
    forall i :: 0 <= i < |lines| ==> IsIPython(lines[i])
  }

  /** `prompt_template.format(count=count)`. */
  function PromptText(count: int): string
  {
    "In [" + IntToString(count) + "]: "
  }

  /** Python's `line[n:]`. */
  function Drop(line: string, n: nat): (r: string)
    ensures |r| <= |line|
    ensures r == line[|line| - |r|..]
  {
    if n <= |line| then line[n..] else ""
  }

  function DropAll(lines: seq<string>, n: nat): (r: seq<string>)
    ensures |r| == |lines|
    ensures forall i :: 0 <= i < |lines| ==> r[i] == Drop(lines[i], n)
  {
    if lines == [] then [] else [Drop(lines[0], n)] + DropAll(lines[1..], n)
  }

  /** The `TypeError` of calling `remove_prompt` without the count the first line did not provide. */
  const MissingCount: string := "remove_prompt() missing 1 required positional argument: 'count'"

  /**
   * `extraction_func`: every line must be a prompt or a continuation line;
   * every line loses as many characters as the prompt of the first line's
   * count has, and magics are hidden. The parameters are the count.
   */
  function Extract(code: string): (r: Result<(Option<nat>, string)>)
    ensures r.Err? <==> !AllIPython(Split(code)) || Metadata(Split(code)[0]).None?
    ensures !AllIPython(Split(code)) ==> r == Err(InvalidFormatError("misformatted code unit: " + code))
    ensures AllIPython(Split(code)) && Metadata(Split(code)[0]).None? ==> r == Err(TypeError(MissingCount))
    ensures r.Ok? ==> r.value.0 == Metadata(Split(code)[0])
  {
    var lines := Split(code);
    var parameters := Metadata(lines[0]);
    if !AllIPython(lines) then Err(InvalidFormatError("misformatted code unit: " + code))
    else if parameters.None? then Err(TypeError(MissingCount))
    else Ok((parameters, HideMagic(Join(DropAll(lines, |PromptText(parameters.value)|)))))
  }

  /** The continuation prompt, right-aligned with the prompt. */
  function ContinuationPromptFor(prompt: string): (r: string)
    ensures |prompt| >= |ContinuationTemplate| ==> |r| == |prompt|
  {
    Spaces(|prompt| - |ContinuationTemplate|) + ContinuationTemplate
  }

  function PrefixAll(prefix: string, lines: seq<string>): (r: seq<string>)
    ensures |r| == |lines|
    ensures forall i :: 0 <= i < |lines| ==> r[i] == prefix + lines[i]
  {
    if lines == [] then [] else [prefix + lines[0]] + PrefixAll(prefix, lines[1..])
  }

  /** The lines `reformatting_func` joins: the first after the prompt, the others after the continuation prompt. */
  function PromptedLines(code: string, count: int): (r: seq<string>)
    ensures |r| == |Split(RevealMagic(code))|
  {
    Prompted(Split(RevealMagic(code)), count)
  }

  function Prompted(lines: seq<string>, count: int): (r: seq<string>)
    requires |lines| >= 1
    ensures |r| == |lines|
  {
    var prompt := PromptText(count);
    [prompt + lines[0]] + PrefixAll(ContinuationPromptFor(prompt), lines[1..])
  }

  /** `reformatting_func`: magics are revealed and every line is prompted again. */
  function Reformat(code: string, count: int): string
  {
    Join(PromptedLines(code, count))
  }

  lemma RunDigits(ds: string, t: string)
    requires AllDigits(ds) && t != [] && !IsDigit(t[0])
    ensures Run(ds + t, IsDigit) == |ds|
  {
    assert (ds + t)[|ds|] == t[0];
    RunUnique(ds + t, IsDigit, |ds|);
  }

  lemma RunSpaces(n: int, t: string)
    requires t != [] && t[0] != ' '
    ensures Run(Spaces(n) + t, IsBlankChar) == |Spaces(n)|
  {
    assert (Spaces(n) + t)[|Spaces(n)|] == t[0];
    RunUnique(Spaces(n) + t, IsBlankChar, |Spaces(n)|);
  }

  /** `prompt_re` on a line with no indent, digits between `In [` and `]: `. */
  lemma MatchPromptOf(line: string, ds: string, tail: string)
    requires line == "In [" + ds + tail
    requires |ds| >= 1 && AllDigits(ds) && StartsWith(tail, "]: ")
    ensures MatchPrompt(line) == Some(PromptMatch(0, "In [" + ds + "]: ", ds))
  {
    assert line[0] == 'I';
    RunUnique(line, IsBlankChar, 0);
    var whole := line[0..];
    assert whole == line;
    assert whole[4..] == ds + tail;
    RunDigits(ds, tail);
    assert whole[4 + |ds|..] == tail;
    assert whole[..4 + |ds| + 3] == "In [" + ds + "]: ";
    assert whole[4..4 + |ds|] == ds;
  }

  /** A line behind the prompt for `count` matches `prompt_re`, with that count. */
  lemma PromptLineMatches(count: nat, l: string)
    ensures MatchPrompt(PromptText(count) + l) == Some(PromptMatch(0, PromptText(count), NatToString(count)))
    ensures Metadata(PromptText(count) + l) == Some(count)
  {
    var ds := NatToString(count);
    MatchPromptOf(PromptText(count) + l, ds, "]: " + l);
    NatToStringRoundTrip(count);
  }

  /** A line behind the continuation prompt matches `continuation_prompt_re`, aligned with the prompt. */
  lemma ContinuationLineMatches(prompt: string, l: string)
    requires |prompt| >= |ContinuationTemplate|
    ensures MatchContinuation(ContinuationPromptFor(prompt) + l) == Some(|prompt| - |ContinuationTemplate|)
  {
    var n := |prompt| - |ContinuationTemplate|;
    var line := ContinuationPromptFor(prompt) + l;
    assert line == Spaces(n) + (ContinuationTemplate + l);
    RunSpaces(n, ContinuationTemplate + l);
    assert line[n..] == ContinuationTemplate + l;
  }

  lemma PromptTextNoNewline(count: nat)
    ensures '\n' !in PromptText(count)
    ensures |PromptText(count)| >= 8
  {
    var ds := NatToString(count);
    assert PromptText(count) == "In [" + ds + "]: ";
    forall i | 0 <= i < |PromptText(count)| ensures PromptText(count)[i] != '\n' {
      if 4 <= i < 4 + |ds| {
        assert PromptText(count)[i] == ds[i - 4];
      }
    }
  }

  lemma PromptedShape(lines: seq<string>, count: nat)
    requires |lines| >= 1 && NoNewlineIn(lines)
    ensures var r := Prompted(lines, count);
      NoNewlineIn(r) && AllIPython(r) && Metadata(r[0]) == Some(count)
      && DropAll(r, |PromptText(count)|) == lines
  {
    var r := Prompted(lines, count);
    PromptLineMatches(count, lines[0]);
    PromptedEach(lines, count);
    assert DropAll(r, |PromptText(count)|) == lines;
  }

  lemma PromptedEach(lines: seq<string>, count: nat)
    requires |lines| >= 1 && NoNewlineIn(lines)
    ensures var r := Prompted(lines, count);
      forall i :: 0 <= i < |r| ==> '\n' !in r[i] && IsIPython(r[i]) && Drop(r[i], |PromptText(count)|) == lines[i]
  {
    var prompt := PromptText(count);
    var cont := ContinuationPromptFor(prompt);
    var r := Prompted(lines, count);
    forall i | 0 <= i < |r|
      ensures '\n' !in r[i] && IsIPython(r[i]) && Drop(r[i], |prompt|) == lines[i]
    {
      var p := if i == 0 then prompt else cont;
      PromptedAt(lines, count, i);
      PromptedLineShape(count, p, lines[i]);
    }
  }

  lemma PromptedAt(lines: seq<string>, count: nat, i: nat)
    requires i < |lines|
    ensures Prompted(lines, count)[i]
      == (if i == 0 then PromptText(count) else ContinuationPromptFor(PromptText(count))) + lines[i]
  {
    if i > 0 {
      assert lines[1..][i - 1] == lines[i];
    }
  }

  /** A line behind the prompt or the continuation prompt for `count`. */
  lemma PromptedLineShape(count: nat, p: string, l: string)
    requires p == PromptText(count) || p == ContinuationPromptFor(PromptText(count))
    requires '\n' !in l
    ensures '\n' !in p + l && IsIPython(p + l) && Drop(p + l, |PromptText(count)|) == l
  {
    var prompt := PromptText(count);
    PromptTextNoNewline(count);
    if p == prompt {
      PromptLineMatches(count, l);
    } else {
      ContinuationLineMatches(prompt, l);
      SpacesNoNewline(|prompt| - |ContinuationTemplate|);
      assert '\n' !in ContinuationTemplate;
    }
    assert (p + l)[|p|..] == l;
  }

  predicate NoNewlineIn(lines: seq<string>)
  {
    forall i :: 0 <= i < |lines| ==> '\n' !in lines[i]
  }

  /** Extracting what reformatting produced recovers the count and the code, magics hidden again. */
  lemma ReformatThenExtract(code: string, count: nat)
    ensures Extract(Reformat(code, count)) == Ok((Some(count), HideMagic(RevealMagic(code))))
  {
    var r := PromptedLines(code, count);
    PromptedShape(Split(RevealMagic(code)), count);
    SplitJoin(r);
    JoinSplit(RevealMagic(code));
  }

  /**
   * A cell as reformatting writes it for `count`: the first line starts
   * with the prompt, every other line with the continuation prompt aligned
   * with it, and what follows the prompts is code `reveal_magic` gives back
   * unchanged after `hide_magic`.
   */
  predicate WellFormedCell(code: string, count: nat)
  {
    var lines, prompt := Split(code), PromptText(count);
    StartsWith(lines[0], prompt)
    && (forall i :: 1 <= i < |lines| ==> StartsWith(lines[i], ContinuationPromptFor(prompt)))
    && RevealableLines(DropAll(lines, |prompt|))
  }

  lemma PromptedLineIsIPython(count: nat, line: string)
    requires StartsWith(line, PromptText(count))
    ensures IsIPython(line) && Metadata(line) == Some(count)
  {
    var prompt := PromptText(count);
    assert line == prompt + line[|prompt|..];
    PromptLineMatches(count, line[|prompt|..]);
  }

  lemma ContinuedLineIsIPython(prompt: string, line: string)
    requires |prompt| >= |ContinuationTemplate|
    requires StartsWith(line, ContinuationPromptFor(prompt))
    ensures IsIPython(line)
  {
    var cont := ContinuationPromptFor(prompt);
    assert line == cont + line[|cont|..];
    ContinuationLineMatches(prompt, line[|cont|..]);
  }

  lemma CellPrompt(code: string, count: nat)
    requires WellFormedCell(code, count)
    ensures AllIPython(Split(code)) && Metadata(Split(code)[0]) == Some(count)
  {
    var lines := Split(code);
    var prompt := PromptText(count);
    PromptTextNoNewline(count);
    PromptedLineIsIPython(count, lines[0]);
    forall i | 1 <= i < |lines| ensures IsIPython(lines[i]) {
      ContinuedLineIsIPython(prompt, lines[i]);
    }
  }

  lemma DroppedLines(lines: seq<string>, n: nat)
    requires NoNewlineIn(lines)
    ensures NoNewlineIn(DropAll(lines, n))
  {
    var dropped := DropAll(lines, n);
    forall i | 0 <= i < |dropped| ensures '\n' !in dropped[i] {
      assert forall c :: c in dropped[i] ==> c in lines[i];
    }
  }

  /** What extraction makes of a well-formed cell: its count, and its lines without prompts, magics hidden. */
  lemma ExtractCell(code: string, count: nat)
    requires WellFormedCell(code, count)
    ensures var dropped := DropAll(Split(code), |PromptText(count)|);
      Extract(code) == Ok((Some(count), HideMagic(Join(dropped))))
      && Split(RevealMagic(HideMagic(Join(dropped)))) == dropped
  {
    var lines := Split(code);
    CellPrompt(code, count);
    var dropped := DropAll(lines, |PromptText(count)|);
    DroppedLines(lines, |PromptText(count)|);
    SplitJoin(dropped);
    RevealHide(Join(dropped));
  }

  /** A prompt taken off the front of a line and put back gives the line. */
  lemma Reattach(line: string, p: string)
    requires StartsWith(line, p)
    ensures p + Drop(line, |p|) == line
  {
    assert line == line[..|p|] + line[|p|..];
  }

  /** Putting the prompts back in front of the lines without them. */
  lemma Reprefix(lines: seq<string>, prompt: string, cont: string)
    requires |lines| >= 1 && |cont| == |prompt|
    requires StartsWith(lines[0], prompt)
    requires forall i :: 1 <= i < |lines| ==> StartsWith(lines[i], cont)
    ensures [prompt + DropAll(lines, |prompt|)[0]] + PrefixAll(cont, DropAll(lines, |prompt|)[1..]) == lines
  {
    var dropped := DropAll(lines, |prompt|);
    var tail := dropped[1..];
    var rest := PrefixAll(cont, tail);
    Reattach(lines[0], prompt);
    forall i | 0 <= i < |rest| ensures rest[i] == lines[i + 1] {
      assert tail[i] == Drop(lines[i + 1], |cont|);
      Reattach(lines[i + 1], cont);
    }
    assert rest == lines[1..];
    assert lines == [lines[0]] + lines[1..];
  }

  /** Reformatting what extraction produced gives a well-formed cell back unchanged. */
  lemma ExtractThenReformat(code: string, count: nat)
    requires WellFormedCell(code, count)
    ensures Extract(code).Ok? && Extract(code).value.0 == Some(count)
    ensures Reformat(Extract(code).value.1, count) == code
  {
    var lines := Split(code);
    var prompt := PromptText(count);
    ExtractCell(code, count);
    PromptTextNoNewline(count);
    var x := Extract(code).value.1;
    assert Split(RevealMagic(x)) == DropAll(lines, |prompt|);
    Reprefix(lines, prompt, ContinuationPromptFor(prompt));
    assert PromptedLines(x, count) == lines;
    JoinSplit(code);
  }
}
