/**
 * The extraction and reformatting facade: `extract_code` dedents a code
 * unit, remembers how deep it was indented and hands the dedented text to
 * the extraction function registered for its format; `reformat_code` hands
 * reformatted code to the format's reformatting function and indents the
 * result back by that depth.
 *
 * The functions are the entries of the registry's tables; their parameters
 * (`P` for what extraction returns, `Q` for what reformatting takes) differ
 * between formats, so the facade is generic in them.
 */
module Formats {
  import opened Common
  import opened Text
  import opened Dedent

  /** The message of the `RuntimeError` for a format nobody registered. */
  function UnknownFormat(format: string): Error
  {
    RuntimeError("unknown code format: " + format)
  }

  /**
   * The indentation depth: where the first five characters of the dedented
   * unit first occur in the unit, or -1 when they do not occur at all.
   */
  function Depth(unit: string): (d: int)
    ensures var dedented := DedentText(unit);
      var head := dedented[..if |dedented| < 5 then |dedented| else 5];
      (d == -1 || OccursAt(unit, head, d)) && forall j :: 0 <= j && (d == -1 || j < d) ==> !OccursAt(unit, head, j)
  {
    var dedented := DedentText(unit);
    Find(unit, dedented[..if |dedented| < 5 then |dedented| else 5])
  }

  /**
   * `extract_code`: an unknown format raises `RuntimeError`; otherwise the
   * format's extractor sees the dedented unit, whatever it raises propagates,
   * and its parameters and code come back with the depth.
   */
  function ExtractCode<P>(unit: string, format: string, extraction: map<string, string -> Result<(P, string)>>)
    : (r: Result<(int, P, string)>)
    ensures format !in extraction ==> r == Err(UnknownFormat(format))
    ensures format in extraction && extraction[format](DedentText(unit)).Err? ==>
      r == Err(extraction[format](DedentText(unit)).error)
    ensures format in extraction && extraction[format](DedentText(unit)).Ok? ==>
      r.Ok? && r.value.0 == Depth(unit) && (r.value.1, r.value.2) == extraction[format](DedentText(unit)).value
  {
    var dedented := DedentText(unit);
    var depth := Depth(unit);
    if format !in extraction then Err(UnknownFormat(format))
    else
      match extraction[format](dedented)
      case Err(e) => Err(e)
      case Ok((parameters, extracted)) => Ok((depth, parameters, extracted))
  }

  /**
   * `reformat_code`: an unknown format raises `RuntimeError`; otherwise every
   * line of what the format's reformatter returns that is not blank is
   * indented by `depth` spaces.
   */
  function ReformatCode<Q>(code: string, format: string, depth: int, parameters: Q,
                           reformatting: map<string, (string, Q) -> Result<string>>): (r: Result<string>)
    ensures format !in reformatting ==> r == Err(UnknownFormat(format))
    ensures format in reformatting && reformatting[format](code, parameters).Err? ==>
      r == reformatting[format](code, parameters)
    ensures format in reformatting && reformatting[format](code, parameters).Ok? ==>
      var out := reformatting[format](code, parameters).value;
      r.Ok? && SplitLines(r.value) == IndentLines(SplitLines(out), Spaces(depth))
      && (NewlineBreaksOnly(out) ==> Split(r.value) == IndentLines(Split(out), Spaces(depth)))
  {
    if format !in reformatting then Err(UnknownFormat(format))
    else
      match reformatting[format](code, parameters)
      case Err(e) => Err(e)
      case Ok(reformatted) =>
        SpacesNoLineBreak(depth);
        IndentShape(reformatted, Spaces(depth));
        Ok(IndentText(reformatted, Spaces(depth)))
  }

  /**
   * `textwrap.indent` maps the lines one by one: blank lines stay, the others
   * get the prefix; when newlines are the only boundaries, this holds for the
   * lines of `split("\n")` too.
   */
  lemma IndentShape(text: string, prefix: string)
    requires NoLineBreak(prefix)
    ensures SplitLines(IndentText(text, prefix)) == IndentLines(SplitLines(text), prefix)
    ensures NewlineBreaksOnly(text) ==> Split(IndentText(text, prefix)) == IndentLines(Split(text), prefix)
  {
    IndentKeepsLines(text, prefix);
    if NewlineBreaksOnly(text) {
      IndentAtNewlines(text, prefix);
      NewlineLines(text, prefix);
    }
  }

  lemma NewlineLines(text: string, prefix: string)
    requires NoLineBreak(prefix)
    ensures Split(Join(IndentLines(Split(text), prefix))) == IndentLines(Split(text), prefix)
  {
    var ls := IndentLines(Split(text), prefix);
    forall i | 0 <= i < |ls| ensures '\n' !in ls[i] {
      assert forall c :: c in ls[i] ==> c in prefix || c in Split(text)[i];
    }
    SplitJoin(ls);
  }

  /** The first line of a text is where the text starts. */
  lemma {:induction false} FirstLine(s: string)
    ensures StartsWith(s, Split(s)[0])
  {
    if s != [] && s[0] != '\n' {
      FirstLine(s[1..]);
      assert Split(s)[0] == [s[0]] + Split(s[1..])[0];
    }
  }

  /** `"\n".join(lines)` starts with its first line. */
  lemma JoinStarts(lines: seq<string>)
    requires lines != []
    ensures StartsWith(Join(lines), lines[0])
  {
    if |lines| > 1 {
      assert Join(lines) == lines[0] + ("\n" + Join(lines[1..]));
    }
  }

  /** A text whose first character is not whitespace and which has no whitespace-only line is left alone by dedent. */
  lemma FlushDedent(c: string)
    requires c != [] && !IsSpace(c[0])
    requires NoWhitespaceOnlyLines(Split(c))
    ensures DedentText(c) == c
  {
    var ls := Split(c);
    FirstLine(c);
    assert ls[0] != [] && ls[0][0] == c[0];
    assert !TabSpaceOnly(ls[0]);
    assert Lead(ls[0]) == "";
    assert MarginOrEmpty(ls) == "";
    var ds := DedentLines(ls);
    forall i | 0 <= i < |ls| ensures ds[i] == ls[i] {
      if TabSpaceOnly(ls[i]) {
        TabSpaceOnlyIsBlank(ls[i]);
      }
    }
    assert ds == ls;
    JoinSplit(c);
  }

  /** Indenting starts the text with the prefix and the first line, when that line is not blank. */
  lemma IndentedStart(c: string, d: nat)
    requires c != [] && !IsSpace(c[0]) && NewlineBreaksOnly(c)
    ensures StartsWith(IndentText(c, Spaces(d)), Spaces(d) + Split(c)[0])
  {
    IndentAtNewlines(c, Spaces(d));
    var l0 := Split(c)[0];
    FirstLine(c);
    assert l0 != [] && l0[0] == c[0];
    assert IndentLine(l0, Spaces(d)) == Spaces(d) + l0;
    JoinStarts(IndentLines(Split(c), Spaces(d)));
  }

  /** A pattern found after a run of spaces, which it cannot start in, is found there first. */
  lemma FoundAfterSpaces(unit: string, head: string, d: nat)
    requires head != [] && head[0] != ' '
    requires OccursAt(unit, head, d)
    requires forall j :: 0 <= j < d ==> unit[j] == ' '
    ensures Find(unit, head) == d
  {
    forall j | 0 <= j < d ensures !OccursAt(unit, head, j) {
      assert j + |head| > |unit| || unit[j..j + |head|][0] != head[0];
    }
  }

  /** Dedent undoes indenting flush code. */
  lemma IndentedDedent(c: string, d: nat)
    requires c != [] && !IsSpace(c[0])
    requires NewlineBreaksOnly(c) && NoWhitespaceOnlyLines(Split(c))
    ensures DedentText(IndentText(c, Spaces(d))) == c
  {
    IndentThenDedent(c, d);
    FlushDedent(c);
  }

  /**
   * The depth of a unit that starts with `d` spaces and a line agreeing with
   * its dedented text on the first five characters, the first of which is
   * not a space.
   */
  lemma FoundDepth(unit: string, dedented: string, l0: string, d: nat)
    requires DedentText(unit) == dedented && |dedented| >= 5 && !IsSpace(dedented[0])
    requires |l0| >= 5 && dedented[..5] == l0[..5]
    requires StartsWith(unit, Spaces(d) + l0)
    ensures Depth(unit) == d
  {
    var start := Spaces(d) + l0;
    var head := dedented[..5];
    StartsAt(unit, start);
    var w := unit[d..d + 5];
    forall k | 0 <= k < 5 ensures w[k] == head[k] {
      assert unit[d + k] == start[d + k] == l0[k] == l0[..5][k];
    }
    assert w == head;
    assert forall j :: 0 <= j < d ==> unit[j] == start[j] == ' ';
    FoundAfterSpaces(unit, head, d);
  }

  lemma StartsAt(s: string, prefix: string)
    requires StartsWith(s, prefix)
    ensures forall j :: 0 <= j < |prefix| ==> s[j] == prefix[j]
  {
    assert forall j :: 0 <= j < |prefix| ==> s[j] == s[..|prefix|][j];
  }

  /**
   * Extraction undoes the facade's own indentation: a unit made by indenting
   * flush code by `d` spaces is dedented back to that code and its depth is
   * found to be `d`, as long as the first line holds at least five characters
   * and no line is whitespace only without being empty (see
   * `WhitespaceLineEmptied` for what happens to such a line).
   */
  lemma IndentedDepth(c: string, d: nat)
    requires c != [] && !IsSpace(c[0])
    requires NewlineBreaksOnly(c) && NoWhitespaceOnlyLines(Split(c))
    requires |Split(c)[0]| >= 5
    ensures DedentText(IndentText(c, Spaces(d))) == c
    ensures Depth(IndentText(c, Spaces(d))) == d
  {
    IndentedDedent(c, d);
    IndentedStart(c, d);
    FirstLine(c);
    FoundDepth(IndentText(c, Spaces(d)), c, Split(c)[0], d);
  }

  /**
   * With a first line of one to three characters followed by another line,
   * the five characters searched for take in the newline and the next line's
   * first character, which in the unit is a space, so nothing is found and
   * the depth is -1: the unit's indentation is then lost when the reformatted
   * code is indented back. (A first line of four characters is still found:
   * its five characters end at the newline.)
   */
  lemma ShortFirstLineDepth(a: string, b: string, d: nat)
    requires 1 <= |a| <= 3 && !IsSpace(a[0]) && NoLineBreak(a)
    requires b != [] && !IsSpace(b[0]) && NoLineBreak(b)
    requires d >= 1
    ensures Depth(IndentText(a + "\n" + b, Spaces(d))) == -1
  {
    var c := a + "\n" + b;
    var p := Spaces(d);
    IndentTwoLines(a, b, d);
    var h := c[..if |c| < 5 then |c| else 5];
    assert h[|a|] == '\n' && h[|a| + 1] == b[0];
    ShortHeadMissing(a, b, p, h);
  }

  /**
   * A line holding only spaces is not given back: indenting leaves it
   * alone, and dedent then empties it, so extraction returns the code with
   * that line emptied.
   */
  lemma WhitespaceLineEmptied(a: string, b: string, d: nat)
    requires a != [] && !IsSpace(a[0]) && NoLineBreak(a)
    requires b != [] && !IsSpace(b[0]) && NoLineBreak(b)
    ensures DedentText(IndentText(Join([a, "  ", b]), Spaces(d))) == Join([a, "", b])
  {
    var p := Spaces(d);
    var il := [p + a, "  ", p + b];
    IndentWhitespaceLine(a, b, p);
    assert Split(Join(il)) == il by { SplitJoin(il); }
    WhitespaceLineMargin(a, b, p);
    DedentLinesOfThree(a, b, p);
  }

  /** Indenting the three lines leaves the middle one, which holds only spaces, alone. */
  lemma IndentWhitespaceLine(a: string, b: string, p: string)
    requires a != [] && !IsSpace(a[0]) && NoLineBreak(a)
    requires b != [] && !IsSpace(b[0]) && NoLineBreak(b)
    ensures IndentText(Join([a, "  ", b]), p) == Join([p + a, "  ", p + b])
  {
    var w := "  ";
    assert NoLineBreak(w);
    JoinNoBreaks([a, w, b]);
    SplitJoin([a, w, b]);
    IndentAtNewlines(Join([a, w, b]), p);
    assert !IsBlank(a) && !IsBlank(b) && IsBlank(w);
    assert IndentLines([a, w, b], p) == [p + a, w, p + b];
  }

  /** The margin of the indented lines is the indentation itself. */
  lemma WhitespaceLineMargin(a: string, b: string, p: string)
    requires a != [] && !IsSpace(a[0]) && b != [] && !IsSpace(b[0])
    requires forall j :: 0 <= j < |p| ==> p[j] == ' '
    ensures MarginOrEmpty([p + a, "  ", p + b]) == p
  {
    var il := [p + a, "  ", p + b];
    assert TabSpaceOnly(p) && TabSpaceOnly("  ");
    assert (p + a)[|p|] == a[0] && (p + b)[|p|] == b[0];
    assert !TabSpaceOnly(p + a) && !TabSpaceOnly(p + b);
    LeadShift(p, a);
    LeadShift(p, b);
    assert Lead(a) == "" && Lead(b) == "";
    assert Lead(p + a) == p && Lead(p + b) == p;
    assert Margin([p + b]) == MarginStep(p + b, Margin([])) == Some(p) by {
      assert [p + b][1..] == [];
    }
    assert Margin(["  ", p + b]) == MarginStep("  ", Margin([p + b])) == Some(p) by {
      assert ["  ", p + b][1..] == [p + b];
    }
    CommonPrefixShift(p, "", "");
    assert p + "" == p;
    assert Margin(il) == MarginStep(p + a, Margin(["  ", p + b])) == Some(p) by {
      assert il[1..] == ["  ", p + b];
    }
  }

  /** Dedenting the three indented lines by their margin. */
  lemma DedentLinesOfThree(a: string, b: string, p: string)
    requires a != [] && !IsSpace(a[0]) && b != [] && !IsSpace(b[0])
    requires forall j :: 0 <= j < |p| ==> p[j] == ' '
    requires MarginOrEmpty([p + a, "  ", p + b]) == p
    ensures DedentLines([p + a, "  ", p + b]) == [a, "", b]
  {
    assert (p + a)[|p|] == a[0] && (p + b)[|p|] == b[0];
    assert (p + a)[|p|..] == a && (p + b)[|p|..] == b;
    assert TabSpaceOnly("  ");
  }

  /** Two flush lines indented by `d` spaces, and what dedent makes of them. */
  lemma IndentTwoLines(a: string, b: string, d: nat)
    requires a != [] && !IsSpace(a[0]) && NoLineBreak(a)
    requires b != [] && !IsSpace(b[0]) && NoLineBreak(b)
    ensures var p := Spaces(d);
      IndentText(a + "\n" + b, p) == (p + a) + "\n" + (p + b)
      && DedentText(IndentText(a + "\n" + b, p)) == a + "\n" + b
  {
    var c := a + "\n" + b;
    var p := Spaces(d);
    assert !IsBlank(a) && !IsBlank(b);
    NewlineJoined(a, b);
    assert Split(c) == [a, b] by {
      SplitAppend(a, b);
      SplitNoNewline(a);
      SplitNoNewline(b);
    }
    IndentAtNewlines(c, p);
    assert IndentLines([a, b], p) == [p + a, p + b];
    JoinTwo(p + a, p + b);
    IndentedDedent(c, d);
  }

  /**
   * The head searched for holds the newline right after the first line and
   * the next line's first character; in the unit that newline is followed by
   * a space, so the head occurs nowhere.
   */
  lemma ShortHeadMissing(a: string, b: string, p: string, h: string)
    requires 1 <= |a| && b != [] && b[0] != ' ' && '\n' !in a && '\n' !in b
    requires p != [] && forall j :: 0 <= j < |p| ==> p[j] == ' '
    requires |h| >= |a| + 2 && h[|a|] == '\n' && h[|a| + 1] == b[0]
    ensures Find((p + a) + "\n" + (p + b), h) == -1
  {
    var unit := (p + a) + "\n" + (p + b);
    var d := |p|;
    forall j | 0 <= j ensures !OccursAt(unit, h, j) {
      if j + |h| <= |unit| {
        var w := unit[j..j + |h|];
        assert w[|a|] == unit[j + |a|] && w[|a| + 1] == unit[j + |a| + 1];
        if j == d {
          assert unit[j + |a| + 1] == (p + b)[0] == ' ';
        } else if j < d {
          assert unit[j + |a|] == (p + a)[j + |a|];
        } else {
          assert unit[j + |a|] == (p + b)[j - d - 1];
        }
      }
    }
  }

  /**
   * What `reformat_code` produces is what `extract_code` takes apart: the
   * extractor sees the reformatter's output again, at the depth it was
   * indented by, when that output starts flush with a line of at least five
   * characters, has only newline line breaks and has no line that is
   * whitespace only without being empty.
   */
  lemma ReformatThenExtract<P, Q>(code: string, format: string, d: nat, parameters: Q,
                                  reformatting: map<string, (string, Q) -> Result<string>>,
                                  extraction: map<string, string -> Result<(P, string)>>)
    requires format in reformatting && format in extraction
    requires reformatting[format](code, parameters).Ok?
    requires var c := reformatting[format](code, parameters).value;
      c != [] && !IsSpace(c[0]) && NewlineBreaksOnly(c) && NoWhitespaceOnlyLines(Split(c)) && |Split(c)[0]| >= 5
    ensures var c := reformatting[format](code, parameters).value;
      var r := ExtractCode(ReformatCode(code, format, d, parameters, reformatting).value, format, extraction);
      (r.Ok? <==> extraction[format](c).Ok?)
      && (r.Ok? ==> r.value == (d, extraction[format](c).value.0, extraction[format](c).value.1))
  {
    var c := reformatting[format](code, parameters).value;
    IndentedDepth(c, d);
  }
}
