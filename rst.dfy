/**
 * reStructuredText code directives: `.. code::`, `.. code-block::` and
 * `.. ipython::`, whose body is every following line indented deeper than
 * the directive, blank lines included when more body follows them.
 */
module Rst {
  import opened Common
  import opened Text
  import opened Stream
  import opened Protocol

  const Name: string := "rst"

  /** The directive names whose bodies are claimed. */
  const CodeNames: set<string> := {"code", "code-block", "ipython"}

  // ---------------------------------------------------------------- directive

  predicate IsPlainSpace(c: char)
  {
    c == ' '
  }

  predicate IsNameChar(c: char)
  {
    c == '-' || IsLower(c)
  }

  /** The groups of a directive match: the indent width, the name and the optional language. */
  datatype Directive = Directive(indent: nat, name: string, language: Option<string>)

  /** `(?: (?P<language>[a-z]+))?` at position `j`: a space and a run of lower-case letters, if present. */
  function LanguageAt(line: string, j: nat): (r: Option<string>)
    requires j <= |line|
    ensures r.Some? ==> |r.value| >= 1 && StartsWith(line[j..], [' '] + r.value)
  {
    if j + 2 <= |line| && line[j] == ' ' && IsLower(line[j + 1]) then
      var n := Run(line[j + 1..], IsLower);
      assert line[j..][..n + 1] == [' '] + line[j + 1..j + 1 + n];
      Some(line[j + 1..j + 1 + n])
    else None
  }

  /**
   * The rest of the pattern after `i` characters of indentation: two
   * characters other than a newline (the unescaped `..`), a space, a name
   * `[a-z][-a-z]*` and `::`. The name is taken greedily and cannot be
   * shortened, since `:` is not a name character.
   */
  function MatchAt(line: string, i: nat): (m: Option<Directive>)
    requires i <= |line|
    ensures m.Some? ==> m.value.indent == i
  {
    if i + 4 > |line| || line[i] == '\n' || line[i + 1] == '\n' || line[i + 2] != ' ' || !IsLower(line[i + 3])
    then None
    else
      var n := i + 3 + Run(line[i + 3..], IsNameChar);
      if !OccursAt(line, "::", n) then None
      else Some(Directive(i, line[i + 3..n], LanguageAt(line, n + 2)))
  }

  /** Backtracking over the indentation: the longest run of leading spaces, down to none, after which the rest matches. */
  function MatchFrom(line: string, i: nat): (m: Option<Directive>)
    requires i <= |line|
    ensures m.Some? ==> m.value.indent <= i
    decreases i
  {
    match MatchAt(line, i)
    case Some(d) => Some(d)
    case None => if i == 0 then None else MatchFrom(line, i - 1)
  }

  /** `directive_re.match(line)`. */
  function MatchDirective(line: string): (m: Option<Directive>)
    ensures m.Some? ==> m.value.indent <= Run(line, IsPlainSpace)
  {
    MatchFrom(line, Run(line, IsPlainSpace))
  }

  lemma CodeName(line: string, i: nat)
    requires i + 6 <= |line| && line[i..i + 6] == "code::"
    ensures Run(line[i..], IsNameChar) == 4 && line[i..i + 4] == "code" && OccursAt(line, "::", i + 4)
  {
    var t := line[i..];
    assert t[..6] == "code::";
    assert t[0] == 'c' && t[1] == 'o' && t[2] == 'd' && t[3] == 'e' && t[4] == ':';
    assert t[1..][1..][1..][1..] == t[4..];
    assert Run(t[4..], IsNameChar) == 0;
  }

  /** The unescaped dots match any two characters: a line without dots opens a directive. */
  lemma DotsMatchAnyCharacter()
    ensures MatchDirective("ab code::") == Some(Directive(0, "code", None))
  {
    var l := "ab code::";
    assert Run(l, IsPlainSpace) == 0;
    assert l[3..9] == "code::";
    CodeName(l, 3);
  }

  /**
   * The indentation group gives back spaces until the dots match: a
   * `code::` indented by four spaces opens a directive at indent 1.
   */
  lemma IndentGivesBackSpaces()
    ensures MatchDirective("    code::") == Some(Directive(1, "code", None))
  {
    var l := "    code::";
    assert Run(l, IsPlainSpace) == 4 by {
      assert l[1..][1..][1..][1..] == l[4..];
      assert Run(l[4..], IsPlainSpace) == 0;
    }
    assert MatchFrom(l, 1) == Some(Directive(1, "code", None)) by {
      IndentedCodeAt(l);
    }
    assert MatchAt(l, 2) == None by {
      assert l[4] == 'c';
    }
    assert MatchAt(l, 3) == None by {
      assert l[5] == 'o';
    }
    assert MatchAt(l, 4) == None by {
      assert l[6] == 'd';
    }
  }

  lemma IndentedCodeAt(l: string)
    requires l == "    code::"
    ensures MatchAt(l, 1) == Some(Directive(1, "code", None))
  {
    assert l[1] == ' ' && l[2] == ' ' && l[3] == ' ' && l[4] == 'c';
    assert l[4..10] == "code::";
    CodeName(l, 4);
    assert LanguageAt(l, 10) == None;
  }

  // ---------------------------------------------------------------- detection

  /** The `take_while` predicate of `continuation_lines`: the line is blank. */
  predicate IsBlankLine(l: NumberedLine)
  {
    IsBlank(l.1)
  }

  /** How many lines `continuation_lines` yields and how many it consumes. */
  datatype Extent = Extent(yielded: nat, consumed: nat)

  /**
   * `continuation_lines` on the lines after the directive, as the number of
   * lines it yields and the number it consumes. It takes the blank lines
   * ahead; at the end of the stream it stops with them consumed and not
   * yielded; before a line indented no deeper than the directive it puts
   * them back and stops; otherwise it yields them and that line and goes on.
   */
  function Body(rem: seq<NumberedLine>, indent: int): (r: Extent)
    ensures r.yielded <= r.consumed <= |rem|
    ensures r.yielded == r.consumed || r.consumed == |rem|
    decreases |rem|
  {
    var b := Run(rem, IsBlankLine);
    if b == |rem| then Extent(0, |rem|)
    else if IndentWidth(rem[b].1) <= indent then Extent(0, 0)
    else
      var r := Body(rem[b + 1..], indent);
      Extent(b + 1 + r.yielded, b + 1 + r.consumed)
  }

  /** The lines `continuation_lines` consumes without yielding them are blank. */
  lemma {:induction false} BodyUnyieldedBlank(rem: seq<NumberedLine>, indent: int)
    ensures var r := Body(rem, indent);
      forall i :: r.yielded <= i < r.consumed ==> IsBlank(rem[i].1)
    decreases |rem|
  {
    if GoesOn(rem, indent) {
      var b := Run(rem, IsBlankLine);
      var tail := rem[b + 1..];
      BodyUnfold(rem, indent);
      BodyUnyieldedBlank(tail, indent);
      BlankShift(rem, b + 1, Body(tail, indent));
    } else {
      BodyStops(rem, indent);
    }
  }

  /** Blank lines of a tail, indexed in the whole. */
  lemma BlankShift(rem: seq<NumberedLine>, d: nat, r: Extent)
    requires d <= |rem| && r.consumed <= |rem| - d
    requires forall i :: r.yielded <= i < r.consumed ==> IsBlank(rem[d..][i].1)
    ensures forall i :: d + r.yielded <= i < d + r.consumed ==> IsBlank(rem[i].1)
  {
    forall i | d + r.yielded <= i < d + r.consumed ensures IsBlank(rem[i].1) {
      assert rem[i] == rem[d..][i - d];
    }
  }

  /** What `continuation_lines` yields are lines that are blank or indented deeper than the directive. */
  lemma {:induction false} BodyYieldsIndented(rem: seq<NumberedLine>, indent: int)
    ensures forall i :: 0 <= i < Body(rem, indent).yielded ==> IsBlank(rem[i].1) || IndentWidth(rem[i].1) > indent
    decreases |rem|
  {
    var b := Run(rem, IsBlankLine);
    if GoesOn(rem, indent) {
      var tail := rem[b + 1..];
      BodyYieldsIndented(tail, indent);
      BodyUnfold(rem, indent);
      forall i | 0 <= i < Body(rem, indent).yielded ensures IsBlank(rem[i].1) || IndentWidth(rem[i].1) > indent {
        if i > b {
          assert rem[i] == tail[i - b - 1];
        } else if i < b {
          assert IsBlankLine(rem[i]);
        }
      }
    } else {
      BodyStops(rem, indent);
    }
  }

  /** The first `k` lines do not end on a blank line. */
  predicate EndsOnText(rem: seq<NumberedLine>, k: nat)
    requires k <= |rem|
  {
    k == 0 || !IsBlank(rem[k - 1].1)
  }

  /** What `continuation_lines` yields never ends on a blank line. */
  lemma {:induction false} BodyEndsOnText(rem: seq<NumberedLine>, indent: int)
    ensures EndsOnText(rem, Body(rem, indent).yielded)
    decreases |rem|
  {
    if GoesOn(rem, indent) {
      var b := Run(rem, IsBlankLine);
      var tail := rem[b + 1..];
      BodyEndsOnText(tail, indent);
      var t := Body(tail, indent).yielded;
      BodyUnfold(rem, indent);
      assert Body(rem, indent).yielded == b + 1 + t;
      if t > 0 {
        assert rem[b + t] == tail[t - 1];
      }
    } else {
      BodyStops(rem, indent);
    }
  }

  /** The stream ahead is empty, or the first line after its blank lines is indented no deeper than `indent`. */
  predicate DedentAhead(rest: seq<NumberedLine>, indent: int)
  {
    rest != [] ==> Run(rest, IsBlankLine) < |rest| && IndentWidth(rest[Run(rest, IsBlankLine)].1) <= indent
  }

  /**
   * When `continuation_lines` stops before the end of the stream, the first
   * line after the blank ones ahead is indented no deeper than the directive.
   */
  lemma {:induction false} BodyStopsAtDedent(rem: seq<NumberedLine>, indent: int)
    ensures DedentAhead(rem[Body(rem, indent).consumed..], indent)
    decreases |rem|
  {
    if GoesOn(rem, indent) {
      var b := Run(rem, IsBlankLine);
      var tail := rem[b + 1..];
      BodyStopsAtDedent(tail, indent);
      BodyUnfold(rem, indent);
      var c := Body(tail, indent).consumed;
      DropDrop(rem, b + 1, c);
    } else {
      BodyStops(rem, indent);
    }
  }

  /** The directive the first remaining line opens, when it is one of the code directives. */
  predicate Opens(rem: seq<NumberedLine>)
  {
    // at the end of the stream the empty line is matched, and it never matches
    rem != [] && MatchDirective(rem[0].1).Some? && MatchDirective(rem[0].1).value.name in CodeNames
  }

  const NotContiguous: Error := RuntimeError("line numbers are not contiguous")

  /**
   * What `detection_func` does to the remaining lines: it declines unless
   * the current line opens a code directive; otherwise it claims that line
   * and the lines `continuation_lines` yields, with the range ending one past
   * the last, and the stream is left after what `continuation_lines` consumed.
   */
  function DetectSpec(rem: seq<NumberedLine>): (s: Step)
    ensures Sound(rem, s, Name, 0)
    ensures s.detection.Declined? <==> !Opens(rem)
  {
    if !Opens(rem) then Step(Declined, 0, rem)
    else OpenedSpec(rem, MatchDirective(rem[0].1).value.indent)
  }

  /** `DetectSpec` once the first line opens a code directive indented by `indent`. */
  function OpenedSpec(rem: seq<NumberedLine>, indent: int): (s: Step)
    requires rem != []
    ensures Sound(rem, s, Name, 0)
    ensures !s.detection.Declined?
  {
    var r := Body(rem[1..], indent);
    BodyUnyieldedBlank(rem[1..], indent);
    OpenedSound(rem, r);
    Step(Claim(rem[..1 + r.yielded], Name, 0, NotContiguous), 1 + r.yielded, rem[1 + r.consumed..])
  }

  /** A claim of the directive line and the yielded lines after it keeps the protocol. */
  lemma OpenedSound(rem: seq<NumberedLine>, r: Extent)
    requires rem != [] && r.yielded <= r.consumed <= |rem| - 1
    requires r.yielded == r.consumed || r.consumed == |rem| - 1
    requires forall i :: r.yielded <= i < r.consumed ==> IsBlank(rem[1..][i].1)
    ensures Sound(rem, Step(Claim(rem[..1 + r.yielded], Name, 0, NotContiguous), 1 + r.yielded, rem[1 + r.consumed..]), Name, 0)
  {
    BlankShift(rem, 1, r);
    ClaimSoundBlank(rem, 1 + r.yielded, 1 + r.consumed, Name, 0, NotContiguous);
  }

  /**
   * A claim holds the directive line, then only lines that are blank or
   * indented deeper than the directive, and it never ends on a blank line.
   */
  lemma DetectTakesIndented(rem: seq<NumberedLine>)
    requires Opens(rem)
    ensures var s, indent := DetectSpec(rem), MatchDirective(rem[0].1).value.indent;
      (forall i :: 1 <= i < s.claimed ==> IsBlank(rem[i].1) || IndentWidth(rem[i].1) > indent)
      && (s.claimed == 1 || !IsBlank(rem[s.claimed - 1].1))
  {
    var indent := MatchDirective(rem[0].1).value.indent;
    var tail := rem[1..];
    DetectOpened(rem);
    BodyYieldsIndented(tail, indent);
    BodyEndsOnText(tail, indent);
    IndentedShift(rem, Body(tail, indent).yielded, indent);
  }

  /** What `BodyYieldsIndented` and `BodyEndsOnText` say of the lines after the first, indexed in the whole. */
  lemma IndentedShift(rem: seq<NumberedLine>, y: nat, indent: int)
    requires y < |rem|
    requires forall i :: 0 <= i < y ==> IsBlank(rem[1..][i].1) || IndentWidth(rem[1..][i].1) > indent
    requires EndsOnText(rem[1..], y)
    ensures forall i :: 1 <= i < 1 + y ==> IsBlank(rem[i].1) || IndentWidth(rem[i].1) > indent
    ensures y == 0 || !IsBlank(rem[y].1)
  {
    forall i | 1 <= i < 1 + y ensures IsBlank(rem[i].1) || IndentWidth(rem[i].1) > indent {
      assert rem[i] == rem[1..][i - 1];
    }
    if y > 0 {
      assert rem[y] == rem[1..][y - 1];
    }
  }

  /**
   * Blank lines after a block at the end of the stream are consumed without
   * being claimed: they belong to no fragment.
   */
  lemma TrailingBlankLinesConsumed()
    ensures var rem := [(1, ".. code::"), (2, "   x"), (3, "")];
      DetectSpec(rem) == Step(Claimed(Fragment((1, 3), Name, ".. code::" + "\n" + "   x")), 2, [])
  {
    var rem: seq<NumberedLine> := [(1, ".. code::"), (2, "   x"), (3, "")];
    CodeDirectiveLine(".. code::");
    assert rem[1..] == [(2, "   x"), (3, "")];
    IndentedLineThenBlank((2, "   x"), (3, ""));
    assert Opens(rem);
    DetectOpened(rem);
    assert rem[..2] == [(1, ".. code::"), (2, "   x")] && rem[3..] == [];
    ClaimTwo((1, ".. code::"), (2, "   x"));
  }

  /** A claim of two consecutive lines. */
  lemma ClaimTwo(x: NumberedLine, y: NumberedLine)
    requires y.0 == x.0 + 1
    ensures Claim([x, y], Name, 0, NotContiguous) == Claimed(Fragment((x.0, y.0 + 1), Name, x.1 + "\n" + y.1))
  {
    assert Contiguous([x, y]);
    assert Texts([x, y]) == [x.1, y.1];
    JoinTwo(x.1, y.1);
  }

  /** `DetectSpec` on a line that opens a code directive. */
  lemma DetectOpened(rem: seq<NumberedLine>)
    requires Opens(rem)
    ensures var r := Body(rem[1..], MatchDirective(rem[0].1).value.indent);
      DetectSpec(rem) == Step(Claim(rem[..1 + r.yielded], Name, 0, NotContiguous), 1 + r.yielded, rem[1 + r.consumed..])
  {
  }

  lemma CodeDirectiveLine(l: string)
    requires l == ".. code::"
    ensures MatchDirective(l) == Some(Directive(0, "code", None))
  {
    assert Run(l, IsPlainSpace) == 0;
    assert l[3..9] == "code::";
    CodeName(l, 3);
  }

  /** An indented line then a blank one at the end: the first is yielded, both are consumed. */
  lemma IndentedLineThenBlank(x: NumberedLine, y: NumberedLine)
    requires x.1 == "   x" && y.1 == ""
    ensures Body([x, y], 0) == Extent(1, 2)
  {
    var rem := [x, y];
    assert !IsBlank(x.1) by {
      assert !IsSpace(x.1[3]);
    }
    assert Run(rem, IsBlankLine) == 0;
    assert IndentWidth(x.1) == 3 by {
      LStripAfterSpaces(3, "x");
      assert Spaces(3) + "x" == x.1;
    }
    assert rem[1..] == [y];
    assert Run([y], IsBlankLine) == 1 by {
      assert IsBlankLine(y);
      assert [y][1..] == [];
    }
    assert Body([y], 0) == Extent(0, 1);
    BodyUnfold(rem, 0);
  }

  /** Whether a round of `continuation_lines` goes on: more body follows the blank lines ahead. */
  predicate GoesOn(rem: seq<NumberedLine>, indent: int)
  {
    var b := Run(rem, IsBlankLine);
    b < |rem| && IndentWidth(rem[b].1) > indent
  }

  /**
   * One round of the loop in `continuation_lines`: takes the blank lines
   * ahead, then either stops at the end of the stream, or puts them back
   * before a line indented no deeper than the directive and stops, or
   * returns them and the line after them, which it consumes.
   */
  method Round(lines: Peekable<NumberedLine>, indent: int) returns (more: bool, piece: seq<NumberedLine>)
    requires lines.Valid()
    modifies lines
    ensures lines.Valid()
    ensures more <==> GoesOn(old(lines.Remaining()), indent)
    ensures more ==> var b := Run(old(lines.Remaining()), IsBlankLine);
      piece == old(lines.Remaining())[..b + 1] && lines.Remaining() == old(lines.Remaining())[b + 1..]
    ensures !more ==> var r := Body(old(lines.Remaining()), indent);
      r.yielded == 0 && lines.Remaining() == old(lines.Remaining())[r.consumed..]
  {
    ghost var current := lines.Remaining();
    ghost var b := Run(current, IsBlankLine);
    var newlines := TakeWhile(lines, IsBlankLine);
    var head := lines.Peek();
    if head.None? {
      assert b == |current|;
      return false, [];
    }
    var line := head.value.1;
    if IndentWidth(line) <= indent {
      lines.Prepend(newlines);
      TakeThenDrop(current, b);
      return false, [];
    }
    var _ := lines.Next();
    DropDrop(current, b, 1);
    assert current[..b + 1] == current[..b] + [current[b]];
    return true, newlines + [head.value];
  }

  /** `continuation_lines`: rounds of `Round` until one stops; returns what it yields. */
  method ContinuationLines(lines: Peekable<NumberedLine>, indent: int) returns (taken: seq<NumberedLine>)
    requires lines.Valid()
    modifies lines
    ensures lines.Valid()
    ensures var r := Body(old(lines.Remaining()), indent);
      taken == old(lines.Remaining())[..r.yielded] && lines.Remaining() == old(lines.Remaining())[r.consumed..]
  {
    ghost var start := lines.Remaining();
    taken := [];
    while true
      invariant lines.Valid()
      invariant Tracks(start, taken, lines.Remaining(), indent)
      decreases |lines.Remaining()|
    {
      ghost var rest := lines.Remaining();
      var more, piece := Round(lines, indent);
      if !more {
        StopRound(start, taken, rest, lines.Remaining(), indent);
        break;
      }
      BodyUnfold(rest, indent);
      TracksStep(start, taken, rest, |piece|, lines.Remaining(), indent);
      taken := taken + piece;
    }
  }

  /**
   * The loop invariant of `ContinuationLines`: what was taken and what
   * remains make up the start, and `Body` of the start is `Body` of what
   * remains, moved past what was taken.
   */
  ghost predicate Tracks(start: seq<NumberedLine>, taken: seq<NumberedLine>, rest: seq<NumberedLine>, indent: int)
  {
    var r, t := Body(start, indent), Body(rest, indent);
    taken + rest == start && r == Extent(|taken| + t.yielded, |taken| + t.consumed)
  }

  /** The loop of `ContinuationLines` stops when a round stops. */
  lemma StopRound(start: seq<NumberedLine>, taken: seq<NumberedLine>, rest: seq<NumberedLine>,
                  after: seq<NumberedLine>, indent: int)
    requires Tracks(start, taken, rest, indent)
    requires var t := Body(rest, indent); t.yielded == 0 && after == rest[t.consumed..]
    ensures var r := Body(start, indent); taken == start[..r.yielded] && after == start[r.consumed..]
  {
    var c := Body(rest, indent).consumed;
    assert start[..|taken|] == taken;
    assert start[|taken| + c..] == rest[c..];
  }

  /** `Tracks` moves past the first `k` lines of what remains when `Body` does. */
  lemma TracksStep(start: seq<NumberedLine>, taken: seq<NumberedLine>, rest: seq<NumberedLine>,
                   k: nat, after: seq<NumberedLine>, indent: int)
    requires Tracks(start, taken, rest, indent)
    requires k <= |rest| && after == rest[k..]
    requires var t, u := Body(rest, indent), Body(after, indent);
      t == Extent(k + u.yielded, k + u.consumed)
    ensures Tracks(start, taken + rest[..k], after, indent)
  {
    AppendSplit(taken, rest, k);
  }

  /** `Body` when no more body follows the blank lines ahead. */
  lemma BodyStops(rem: seq<NumberedLine>, indent: int)
    requires !GoesOn(rem, indent)
    ensures Body(rem, indent) == if Run(rem, IsBlankLine) == |rem| then Extent(0, |rem|) else Extent(0, 0)
  {
  }

  /** `Body` once more body follows the blank lines ahead. */
  lemma BodyUnfold(rem: seq<NumberedLine>, indent: int)
    requires GoesOn(rem, indent)
    ensures var b := Run(rem, IsBlankLine); var u := Body(rem[b + 1..], indent);
      Body(rem, indent) == Extent(b + 1 + u.yielded, b + 1 + u.consumed)
  {
  }

  /** `detection_func`. */
  method Detect(lines: Peekable<NumberedLine>) returns (r: Detection)
    requires lines.Valid()
    modifies lines
    ensures lines.Valid()
    ensures r == DetectSpec(old(lines.Remaining())).detection
    ensures lines.Remaining() == DetectSpec(old(lines.Remaining())).rest
  {
    ghost var start := lines.Remaining();
    var head := lines.Peek();
    var line := if head.None? then "" else head.value.1;
    var m := MatchDirective(line);
    if m.None? || m.value.name !in CodeNames {
      return Declined;
    }
    var first := lines.Next();
    var more := ContinuationLines(lines, m.value.indent);
    ghost var b := Body(start[1..], m.value.indent);
    ConsTake(start, b.yielded);
    DropDrop(start, 1, b.consumed);
    r := Claim([first.value] + more, Name, 0, NotContiguous);
  }
}
