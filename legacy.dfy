/**
 * The older single-module pipeline, which knows doctest prompts only: each
 * line is labelled `doctest` or `none` by its prompt, a prompt line is
 * grouped with the `... ` lines after it into a code unit, and a unit's
 * prompts are removed before formatting and added back after it.
 */
module Legacy {
  import opened Common
  import opened Text
  import opened Dedent
  import opened Stream
  import Formats
  import Classification

  const DoctestPrompt: string := ">>> "
  const ContinuationPrompt: string := "... "

  /** `prompt_categories` and `continuation_prompt_categories`, from category to prompt. */
  const PromptCategories: map<string, string> := map["doctest" := DoctestPrompt]
  const ContinuationPromptCategories: map<string, string> := map["doctest" := ContinuationPrompt]

  /** A line or code unit with its category. */
  type Labelled = (string, string)

  /** `extract_prompt`: the first four characters of the line once its leading whitespace is gone. */
  function ExtractPrompt(line: string): (p: string)
    ensures StartsWith(LStrip(line), p)
    ensures |p| == 4 || p == LStrip(line)
  {
    var stripped := LStrip(line);
    stripped[..if |stripped| < 4 then |stripped| else 4]
  }

  /** The `RuntimeError` raised when a prompt is not there to remove. */
  function CannotRemove(prompt: string): Error
  {
    RuntimeError("cannot remove prompt " + prompt + " from line: prompt not found")
  }

  /** `remove_prompt`: the line after the prompt, which it must start with. */
  function RemovePrompt(line: string, prompt: string): (r: Result<string>)
    ensures r.Ok? <==> StartsWith(line, prompt)
    ensures r.Ok? ==> prompt + r.value == line
    ensures r.Err? ==> r.error == CannotRemove(prompt)
  {
    if !StartsWith(line, prompt) then Err(CannotRemove(prompt))
    else
      assert line == line[..|prompt|] + line[|prompt|..];
      Ok(line[|prompt|..])
  }

  /** `add_prompt`. */
  function AddPrompt(line: string, prompt: string): string
  {
    prompt + line
  }

  /** Removing a prompt that was added gives the line back. */
  lemma AddThenRemove(line: string, prompt: string)
    ensures RemovePrompt(AddPrompt(line, prompt), prompt) == Ok(line)
  {
    assert AddPrompt(line, prompt)[..|prompt|] == prompt;
    assert AddPrompt(line, prompt)[|prompt|..] == line;
  }

  /** Adding back a prompt that was removed gives the line back. */
  lemma RemoveThenAdd(line: string, prompt: string)
    requires StartsWith(line, prompt)
    ensures AddPrompt(RemovePrompt(line, prompt).value, prompt) == line
  {
  }

  /** `remove_prompt` on every line, in order; the first line without the prompt raises. */
  function RemoveEach(lines: seq<string>, prompt: string): (r: Result<seq<string>>)
    ensures r.Ok? <==> forall i :: 0 <= i < |lines| ==> StartsWith(lines[i], prompt)
    ensures r.Ok? ==> |r.value| == |lines| && forall i :: 0 <= i < |lines| ==> prompt + r.value[i] == lines[i]
    ensures r.Err? ==> r.error == CannotRemove(prompt)
  {
    if lines == [] then Ok([])
    else
      match RemovePrompt(lines[0], prompt)
      case Err(e) => Err(e)
      case Ok(first) =>
        match RemoveEach(lines[1..], prompt)
        case Err(e) => Err(e)
        case Ok(rest) =>
          assert forall i :: 1 <= i < |lines| ==> lines[i] == lines[1..][i - 1];
          Ok([first] + rest)
  }

  /** `add_prompt` on every line. */
  function AddEach(lines: seq<string>, prompt: string): (r: seq<string>)
    ensures |r| == |lines| && forall i :: 0 <= i < |lines| ==> r[i] == prompt + lines[i]
  {
    if lines == [] then [] else [AddPrompt(lines[0], prompt)] + AddEach(lines[1..], prompt)
  }

  /**
   * `remove_doctest_prompt`: the depth is where the first `>>> ` occurs in
   * the unit; the dedented unit loses `>>> ` from its first line and `... `
   * from every other line, and a line without its prompt raises.
   */
  function RemoveDoctestPrompt(unit: string): (r: Result<(int, string)>)
    ensures var lines := Split(DedentText(unit));
      r.Ok? <==> StartsWith(lines[0], DoctestPrompt)
                 && forall i :: 1 <= i < |lines| ==> StartsWith(lines[i], ContinuationPrompt)
    ensures r.Err? ==> r.error == CannotRemove(DoctestPrompt) || r.error == CannotRemove(ContinuationPrompt)
    ensures r.Ok? ==> r.value.0 == Find(unit, DoctestPrompt)
    ensures r.Ok? ==>
      var lines := Split(DedentText(unit));
      var removed := Split(r.value.1);
      |removed| == |lines| && DoctestPrompt + removed[0] == lines[0]
      && forall i :: 1 <= i < |lines| ==> ContinuationPrompt + removed[i] == lines[i]
  {
    var depth := Find(unit, DoctestPrompt);
    var code := DedentText(unit);
    if '\n' in code then
      var lines := Split(code);
      match RemovePrompt(lines[0], DoctestPrompt)
      case Err(e) => Err(e)
      case Ok(first) =>
        match RemoveEach(lines[1..], ContinuationPrompt)
        case Err(e) =>
          assert forall i :: 1 <= i < |lines| ==> lines[i] == lines[1..][i - 1];
          Err(e)
        case Ok(rest) =>
          RemovedLines(lines, first, rest);
          Ok((depth, Join([first] + rest)))
    else
      SplitNoNewline(code);
      match RemovePrompt(code, DoctestPrompt)
      case Err(e) => Err(e)
      case Ok(removed) =>
        SplitNoNewline(removed);
        Ok((depth, removed))
  }

  /** The lines left once the prompts are removed split apart again as they were. */
  lemma RemovedLines(lines: seq<string>, first: string, rest: seq<string>)
    requires lines != [] && forall i :: 0 <= i < |lines| ==> '\n' !in lines[i]
    requires DoctestPrompt + first == lines[0]
    requires |rest| == |lines| - 1 && forall i :: 0 <= i < |rest| ==> ContinuationPrompt + rest[i] == lines[i + 1]
    ensures Split(Join([first] + rest)) == [first] + rest
  {
    var r := [first] + rest;
    forall i | 0 <= i < |r| ensures '\n' !in r[i] {
      if i == 0 {
        assert forall c :: c in first ==> c in lines[0];
      } else {
        assert forall c :: c in rest[i - 1] ==> c in lines[i];
      }
    }
    SplitJoin(r);
  }

  /** The unit with prompts: `>>> ` before the first line and `... ` before every other. */
  function Prompted(code: string): string
  {
    if '\n' in code then
      var lines := Split(code);
      Join([AddPrompt(lines[0], DoctestPrompt)] + AddEach(lines[1..], ContinuationPrompt))
    else AddPrompt(code, DoctestPrompt)
  }

  /** The prompts add no line boundary. */
  lemma PromptedBreaks(code: string)
    ensures NewlineBreaksOnly(code) ==> NewlineBreaksOnly(Prompted(code))
  {
    if NewlineBreaksOnly(code) {
      if '\n' in code {
        var lines := Split(code);
        var r := [AddPrompt(lines[0], DoctestPrompt)] + AddEach(lines[1..], ContinuationPrompt);
        SplitNoBreaks(code);
        forall k | 0 <= k < |r| ensures NoLineBreak(r[k]) {
          if k > 0 {
            assert r[k] == ContinuationPrompt + lines[k];
          }
        }
        JoinNoBreaks(r);
      }
    }
  }

  /** `add_doctest_prompt`: the prompts are added and the unit indented by `depth` spaces. */
  function AddDoctestPrompt(code: string, depth: int): (r: string)
    ensures SplitLines(r) == IndentLines(SplitLines(Prompted(code)), Spaces(depth))
    ensures NewlineBreaksOnly(code) ==> Split(r) == IndentLines(Split(Prompted(code)), Spaces(depth))
  {
    SpacesNoLineBreak(depth);
    PromptedBreaks(code);
    Formats.IndentShape(Prompted(code), Spaces(depth));
    IndentText(Prompted(code), Spaces(depth))
  }

  /** The lines of the prompted unit: the code's lines, each behind its prompt. */
  lemma PromptedLines(code: string)
    ensures var lines := Split(code);
      var p := Split(Prompted(code));
      |p| == |lines| && p[0] == DoctestPrompt + lines[0]
      && forall i :: 1 <= i < |lines| ==> p[i] == ContinuationPrompt + lines[i]
  {
    var lines := Split(code);
    if '\n' in code {
      var r := [AddPrompt(lines[0], DoctestPrompt)] + AddEach(lines[1..], ContinuationPrompt);
      forall i | 0 <= i < |r| ensures '\n' !in r[i] {
        if i == 0 {
          assert forall c :: c in r[0] ==> c in DoctestPrompt || c in lines[0];
        } else {
          assert r[i] == ContinuationPrompt + lines[1..][i - 1];
          assert forall c :: c in r[i] ==> c in ContinuationPrompt || c in lines[1..][i - 1];
        }
      }
      SplitJoin(r);
      assert forall i :: 1 <= i < |lines| ==> lines[i] == lines[1..][i - 1];
    } else {
      SplitNoNewline(code);
      SplitNoNewline(Prompted(code));
    }
  }

  /** The prompted unit starts flush, with no whitespace-only line, and has a newline when the code has one. */
  lemma PromptedShape(code: string)
    ensures var c := Prompted(code);
      c != [] && c[0] == '>' && NoWhitespaceOnlyLines(Split(c)) && ('\n' in c <==> '\n' in code)
      && StartsWith(Split(c)[0], DoctestPrompt)
  {
    var c := Prompted(code);
    var lines := Split(code);
    PromptedLines(code);
    var p := Split(c);
    forall i | 0 <= i < |p| ensures p[i] == "" || !IsBlank(p[i]) {
      assert p[i][0] == '>' || p[i][0] == '.';
    }
    Formats.FirstLine(c);
    assert c[0] == p[0][0] == '>';
    if '\n' in code {
      SplitNewline(code);
      JoinSplit(c);
      assert c == p[0] + "\n" + Join(p[1..]);
    } else {
      SplitNoNewline(code);
      assert c == DoctestPrompt + code;
    }
  }

  /** The unit built at depth `d` dedents to the prompted code, and its first `>>> ` is at `d`. */
  lemma PromptedDepth(code: string, d: nat)
    requires NewlineBreaksOnly(code)
    ensures DedentText(AddDoctestPrompt(code, d)) == Prompted(code)
    ensures Find(AddDoctestPrompt(code, d), DoctestPrompt) == d
  {
    var c := Prompted(code);
    PromptedShape(code);
    PromptedBreaks(code);
    Formats.IndentedDedent(c, d);
    Formats.IndentedStart(c, d);
    PromptAfterSpaces(AddDoctestPrompt(code, d), Split(c)[0], d);
  }

  /** A text that starts with `d` spaces and a line behind the `>>> ` prompt finds the prompt at `d`. */
  lemma PromptAfterSpaces(unit: string, first: string, d: nat)
    requires StartsWith(first, DoctestPrompt)
    requires StartsWith(unit, Spaces(d) + first)
    ensures Find(unit, DoctestPrompt) == d
  {
    var start := Spaces(d) + first;
    assert unit[..|start|] == start;
    assert unit[d..d + 4] == start[d..d + 4] == DoctestPrompt;
    assert forall j :: 0 <= j < d ==> unit[j] == start[j] == ' ';
    Formats.FoundAfterSpaces(unit, DoctestPrompt, d);
  }

  /** Lines that agree once each is put behind the same prompt are the same. */
  lemma SamePrompted(a: seq<string>, b: seq<string>, p0: seq<string>)
    requires |a| == |b| == |p0| >= 1
    requires p0[0] == DoctestPrompt + a[0] == DoctestPrompt + b[0]
    requires forall i :: 1 <= i < |p0| ==> p0[i] == ContinuationPrompt + a[i] == ContinuationPrompt + b[i]
    ensures a == b
  {
    forall i | 0 <= i < |a| ensures a[i] == b[i] {
      var q := if i == 0 then DoctestPrompt else ContinuationPrompt;
      assert a[i] == (q + a[i])[4..] == (q + b[i])[4..] == b[i];
    }
  }

  /**
   * Removing the prompts undoes adding them: the unit built at depth `d` from
   * code whose only line boundaries are newlines gives back `d` and the code
   * (see `CarriageReturnIndented` for other boundaries).
   */
  lemma PromptRoundTrip(code: string, d: nat)
    requires NewlineBreaksOnly(code)
    ensures RemoveDoctestPrompt(AddDoctestPrompt(code, d)) == Ok((d, code))
  {
    var unit := AddDoctestPrompt(code, d);
    PromptedDepth(code, d);
    PromptedLines(code);
    var r := RemoveDoctestPrompt(unit);
    assert r.Ok?;
    SamePrompted(Split(r.value.1), Split(code), Split(Prompted(code)));
    JoinSplit(code);
    JoinSplit(r.value.1);
  }

  /**
   * `textwrap.indent` breaks lines at "\r" too, so the line after a carriage
   * return inside the code is indented as well, and removing the prompts
   * keeps that indentation: the unit built from "a\rb" at depth 2 gives back
   * "a\r  b" (`CarriageReturnKept`).
   */
  lemma CarriageReturnIndented()
    ensures AddDoctestPrompt("a\rb", 2) == ("  " + (">>> a" + "\r")) + ("  " + "b")
  {
    var x, y := ">>> a", "b";
    assert Spaces(2) == "  ";
    assert '\n' !in "a\rb";
    assert Prompted("a\rb") == x + ['\r'] + y;
    assert !IsSpace(x[0]) && !IsSpace(y[0]);
    IndentAtBreak(x, '\r', y, "  ");
  }

  lemma CarriageReturnKept()
    ensures RemoveDoctestPrompt(("  " + (">>> a" + "\r")) + ("  " + "b")) == Ok((2, "a\r" + "  " + "b"))
  {
    var u := ("  " + (">>> a" + "\r")) + ("  " + "b");
    var code := ">>> a\r" + "  " + "b";
    CarriageReturnDedent(u, code);
    assert '\n' !in code;
    assert u[2..6] == DoctestPrompt;
    Formats.FoundAfterSpaces(u, DoctestPrompt, 2);
    CarriageReturnRemoved(code, "a\r" + "  " + "b");
  }

  /** Removing the prompt from the dedented unit of `CarriageReturnIndented` keeps the inner indentation. */
  lemma CarriageReturnRemoved(code: string, rest: string)
    requires code == ">>> a\r" + "  " + "b" && rest == "a\r" + "  " + "b"
    ensures RemovePrompt(code, DoctestPrompt) == Ok(rest)
  {
    assert code == DoctestPrompt + rest;
    var removed := RemovePrompt(code, DoctestPrompt);
    assert removed.Ok? by {
      assert code[..4] == DoctestPrompt;
    }
    assert removed.value == rest by {
      assert removed.value == (DoctestPrompt + removed.value)[4..];
      assert rest == (DoctestPrompt + rest)[4..];
    }
  }

  /** The unit of `CarriageReturnIndented` is one line, which dedent strips of its two spaces. */
  lemma CarriageReturnDedent(u: string, code: string)
    requires u == ("  " + (">>> a" + "\r")) + ("  " + "b") && code == ">>> a\r" + "  " + "b"
    ensures DedentText(u) == code
  {
    assert '\n' !in u;
    SplitNoNewline(u);
    var m := Lead(u);
    assert m == "  " by {
      assert u[0] == ' ' && u[1] == ' ' && u[2] == '>';
      assert |m| == 2;
    }
    assert !TabSpaceOnly(u);
    assert MarginOrEmpty([u]) == "  ";
    assert u[2..] == code;
    assert DedentLine(u, "  ") == code;
    assert DedentAll([u], "  ") == [code];
  }

  // ---------------------------------------------------------- classification

  /** `prompts` and `continuation_prompts` of `classify`: the category tables turned around. */
  const Prompts: map<string, string> := map[DoctestPrompt := "doctest"]
  const ContinuationPrompts: map<string, string> := map[ContinuationPrompt := "doctest"]

  /** The category of a line: the one its prompt belongs to, or `none`. */
  function Category(line: string): (c: string)
    ensures c == "doctest" <==> StartsWith(LStrip(line), DoctestPrompt) || StartsWith(LStrip(line), ContinuationPrompt)
    ensures c == "doctest" || c == "none"
  {
    var maybePrompt := ExtractPrompt(line);
    if maybePrompt in Prompts then Prompts[maybePrompt]
    else if maybePrompt in ContinuationPrompts then ContinuationPrompts[maybePrompt]
    else "none"
  }

  /** `classify`: every line with its category, one for one. */
  function Classify(lines: seq<string>): (r: seq<Labelled>)
    ensures |r| == |lines|
    ensures forall i :: 0 <= i < |lines| ==> r[i] == (Category(lines[i]), lines[i])
  {
    if lines == [] then [] else [(Category(lines[0]), lines[0])] + Classify(lines[1..])
  }

  /** Classifying and unclassifying gives the lines back. */
  lemma UnclassifyClassify(lines: seq<string>)
    ensures Classification.Unclassify(Classify(lines)) == lines
  {
  }

  // ---------------------------------------------------------------- grouping

  /** The line carries the prompt. */
  predicate HasPrompt(item: Labelled, prompt: string)
  {
    ExtractPrompt(item.1) == prompt
  }

  /** How many of the elements at the front carry the given prompt. */
  function ContinuationRun(s: seq<Labelled>, prompt: string): (k: nat)
    ensures k <= |s|
    ensures forall i :: 0 <= i < k ==> HasPrompt(s[i], prompt)
    ensures k == |s| || !HasPrompt(s[k], prompt)
  {
    if s == [] || !HasPrompt(s[0], prompt) then 0
    else
      var k := ContinuationRun(s[1..], prompt);
      assert forall i :: 1 <= i <= k ==> s[i] == s[1..][i - 1];
      1 + k
  }

  lemma {:induction false} ContinuationRunUnique(s: seq<Labelled>, prompt: string, k: nat)
    requires k <= |s|
    requires forall i :: 0 <= i < k ==> HasPrompt(s[i], prompt)
    requires k == |s| || !HasPrompt(s[k], prompt)
    ensures k == ContinuationRun(s, prompt)
  {
    if k > 0 {
      var t := s[1..];
      assert forall i :: 0 <= i < k - 1 ==> t[i] == s[i + 1];
      assert k < |s| ==> t[k - 1] == s[k];
      ContinuationRunUnique(t, prompt, k - 1);
      assert ContinuationRun(s, prompt) == 1 + ContinuationRun(t, prompt);
    }
  }

  /**
   * `continuation_lines`: takes the lines that carry the continuation prompt,
   * looking at each with `peek` first, so the first line without it is left
   * in the stream.
   */
  method ContinuationLines(lines: Peekable<Labelled>, prompt: string) returns (taken: seq<string>)
    requires lines.Valid()
    modifies lines
    ensures lines.Valid()
    ensures var s := old(lines.Remaining());
      var k := ContinuationRun(s, prompt);
      taken == Texts(s[..k]) && lines.Remaining() == s[k..]
  {
    ghost var start := lines.Remaining();
    ghost var n: nat := 0;
    taken := [];
    while true
      invariant lines.Valid()
      invariant n <= |start| && lines.Remaining() == start[n..]
      invariant forall i :: 0 <= i < n ==> HasPrompt(start[i], prompt)
      invariant taken == Texts(start[..n])
      decreases |start| - n
    {
      var head := lines.Peek();
      if head.None? {
        break;
      }
      var (_, line) := head.value;
      if ExtractPrompt(line) != prompt {
        break;
      }
      var _ := lines.Next();
      ContinuationStep(start, n, prompt);
      taken := taken + [line];
      n := n + 1;
    }
    ContinuationRunUnique(start, prompt, n);
  }

  /** One more line taken by `ContinuationLines`. */
  lemma ContinuationStep(start: seq<Labelled>, n: nat, prompt: string)
    requires n < |start| && HasPrompt(start[n], prompt)
    requires forall i :: 0 <= i < n ==> HasPrompt(start[i], prompt)
    ensures forall i :: 0 <= i < n + 1 ==> HasPrompt(start[i], prompt)
    ensures Texts(start[..n + 1]) == Texts(start[..n]) + [start[n].1]
    ensures start[n..][1..] == start[n + 1..]
  {
    TextsAppend(start[..n], [start[n]]);
    assert start[..n + 1] == start[..n] + [start[n]];
  }

  /** The units grouped before grouping ended, and the error that ended it, if any. */
  datatype Grouped = Grouped(units: seq<Labelled>, error: Option<Error>)

  /** The `ValueError` for a category without a continuation prompt; the message is not an f-string, so it shows no category. */
  const UnknownCategory: Error := ValueError("unknown prompt category for grouping: {category}")

  /**
   * `group_code_units` as a specification: a `none` line is a unit of its
   * own; a line of a category with a continuation prompt is joined with the
   * lines after it that carry that prompt; any other category raises.
   */
  function GroupSpec(s: seq<Labelled>): (g: Grouped)
    ensures |g.units| <= |s|
    ensures s != [] && g.error.None? ==> g.units != []
    ensures g.error.Some? ==> g.error.value == UnknownCategory
    decreases |s|
  {
    if s == [] then Grouped([], None)
    else
      var (category, line) := s[0];
      if category == "none" then
        var rest := GroupSpec(s[1..]);
        Grouped([(category, line)] + rest.units, rest.error)
      else if category !in ContinuationPromptCategories then Grouped([], Some(UnknownCategory))
      else
        var k := ContinuationRun(s[1..], ContinuationPromptCategories[category]);
        var rest := GroupSpec(s[1..][k..]);
        Grouped([(category, Join([line] + Texts(s[1..][..k])))] + rest.units, rest.error)
  }

  /** The units of `g` after `units`. */
  function After(units: seq<Labelled>, g: Grouped): Grouped
  {
    Grouped(units + g.units, g.error)
  }

  /** `group_code_units`: the loop over a peekable stream of labelled lines. */
  method GroupCodeUnits(labelled: seq<Labelled>) returns (g: Grouped)
    ensures g == GroupSpec(labelled)
  {
    var lines := new Peekable(labelled);
    var units: seq<Labelled> := [];
    assert After([], GroupSpec(labelled)) == GroupSpec(labelled);
    while true
      invariant lines.Valid()
      invariant GroupSpec(labelled) == After(units, GroupSpec(lines.Remaining()))
      decreases |lines.Remaining()|
    {
      ghost var s := lines.Remaining();
      var item := lines.Next();
      if item.None? {
        assert units + [] == units;
        break;
      }
      GroupUnfold(s);
      var (category, line) := item.value;
      var unit: string;
      if category == "none" {
        unit := line;
      } else {
        if category !in ContinuationPromptCategories {
          assert units + [] == units;
          return Grouped(units, Some(UnknownCategory));
        }
        var continuationPrompt := ContinuationPromptCategories[category];
        var more := ContinuationLines(lines, continuationPrompt);
        unit := Join([line] + more);
      }
      AfterStep(units, (category, unit), GroupSpec(lines.Remaining()));
      units := units + [(category, unit)];
    }
    g := Grouped(units, None);
  }

  /** `GroupSpec` on a stream that is not exhausted, unfolded once. */
  lemma GroupUnfold(s: seq<Labelled>)
    requires s != []
    ensures var (category, line) := s[0];
      if category == "none" then GroupSpec(s) == After([(category, line)], GroupSpec(s[1..]))
      else if category !in ContinuationPromptCategories then GroupSpec(s) == Grouped([], Some(UnknownCategory))
      else
        var k := ContinuationRun(s[1..], ContinuationPromptCategories[category]);
        GroupSpec(s) == After([(category, Join([line] + Texts(s[1..][..k])))], GroupSpec(s[1..][k..]))
  {
  }

  lemma AfterStep(units: seq<Labelled>, u: Labelled, g: Grouped)
    ensures After(units, After([u], g)) == After(units + [u], g)
  {
    assert units + ([u] + g.units) == (units + [u]) + g.units;
  }

  /** Grouping every category it knows never raises. */
  predicate KnownCategories(s: seq<Labelled>)
  {
    forall i :: 0 <= i < |s| ==> s[i].0 == "none" || s[i].0 == "doctest"
  }

  lemma {:induction false} GroupKnown(s: seq<Labelled>)
    requires KnownCategories(s)
    ensures GroupSpec(s).error.None?
    decreases |s|
  {
    if s != [] {
      if s[0].0 == "none" {
        GroupKnown(s[1..]);
      } else {
        var k := ContinuationRun(s[1..], ContinuationPromptCategories[s[0].0]);
        GroupKnown(s[1..][k..]);
      }
    }
  }

  /** Grouping only joins neighbouring lines: the units joined by newlines are the lines joined by newlines. */
  lemma {:induction false} GroupTiles(s: seq<Labelled>)
    requires GroupSpec(s).error.None?
    ensures Join(Texts(GroupSpec(s).units)) == Join(Texts(s))
    decreases |s|
  {
    if s != [] {
      var (category, line) := s[0];
      var k := if category == "none" then 0 else ContinuationRun(s[1..], ContinuationPromptCategories[category]);
      var seg := [line] + Texts(s[1..][..k]);
      var t := s[1..][k..];
      assert s == [s[0]] + s[1..][..k] + t;
      TextsAppend([s[0]] + s[1..][..k], t);
      TextsAppend([s[0]], s[1..][..k]);
      assert Texts(s) == seg + Texts(t);
      var rest := GroupSpec(t);
      assert category == "none" ==> Join(seg) == line by {
        if category == "none" {
          assert seg == [line];
        }
      }
      assert GroupSpec(s).units == [(category, Join(seg))] + rest.units;
      GroupTiles(t);
      if t == [] {
        assert Texts(GroupSpec(s).units) == [Join(seg)];
        assert Texts(s) == seg;
      } else {
        TextsAppend([(category, Join(seg))], rest.units);
        JoinAppend([Join(seg)], Texts(rest.units));
        JoinAppend(seg, Texts(t));
      }
    }
  }

  /**
   * Without the formatter the pipeline is the identity: classifying,
   * grouping and unclassifying a document's lines and joining them gives
   * the document back.
   */
  lemma PipelineKeepsText(lines: seq<string>)
    ensures GroupSpec(Classify(lines)).error.None?
    ensures Join(Classification.Unclassify(GroupSpec(Classify(lines)).units)) == Join(lines)
  {
    GroupKnown(Classify(lines));
    GroupTiles(Classify(lines));
    UnclassifyClassify(lines);
  }
}
