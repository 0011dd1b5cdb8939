/**
 * `textwrap.dedent` and `textwrap.indent`, as the facade and the markdown
 * plugin use them: dedent removes the longest run of leading spaces and tabs
 * common to every line that is not made of spaces and tabs only, and empties
 * those whitespace-only lines, where lines end at "\n" only; indent prefixes
 * every line that is not blank, where lines end at every boundary
 * `str.splitlines` knows.
 */
module Dedent {
  import opened Common
  import opened Text

  /** A line that `textwrap.dedent` treats as whitespace only (`^[ \t]*$`). */
  predicate TabSpaceOnly(l: string)
  {
    forall i :: 0 <= i < |l| ==> IsTabOrSpace(l[i])
  }

  /** The leading run of spaces and tabs of a line (`^[ \t]*`). */
  function Lead(l: string): (r: string)
    ensures StartsWith(l, r) && TabSpaceOnly(r)
    ensures |r| == |l| || !IsTabOrSpace(l[|r|])
  {
    if l != [] && IsTabOrSpace(l[0]) then [l[0]] + Lead(l[1..]) else ""
  }

  function CommonPrefix(a: string, b: string): (r: string)
    ensures StartsWith(a, r) && StartsWith(b, r)
    ensures |r| == |a| || |r| == |b| || a[|r|] != b[|r|]
  {
    if a != [] && b != [] && a[0] == b[0] then [a[0]] + CommonPrefix(a[1..], b[1..]) else ""
  }

  /**
   * The margin `textwrap.dedent` removes: the longest common prefix of the
   * leading whitespace of the lines that are not whitespace only, or `None`
   * when there is no such line. (dedent folds the lines left to right; the
   * longest common prefix does not depend on the order.)
   */
  function Margin(lines: seq<string>): (m: Option<string>)
    ensures m.None? <==> forall i :: 0 <= i < |lines| ==> TabSpaceOnly(lines[i])
    ensures m.Some? ==> TabSpaceOnly(m.value)
    ensures m.Some? ==> forall i :: 0 <= i < |lines| && !TabSpaceOnly(lines[i]) ==> StartsWith(lines[i], m.value)
  {
    if lines == [] then None
    else
      assert forall i :: 1 <= i < |lines| ==> lines[i] == lines[1..][i - 1];
      MarginStep(lines[0], Margin(lines[1..]))
  }

  /** One step of the margin computation: fold line `l` into the margin of the lines after it. */
  function MarginStep(l: string, rest: Option<string>): Option<string>
  {
    if TabSpaceOnly(l) then rest
    else if rest.None? then Some(Lead(l))
    else Some(CommonPrefix(Lead(l), rest.value))
  }

  function MarginOrEmpty(lines: seq<string>): (m: string)
    ensures forall i :: 0 <= i < |lines| && !TabSpaceOnly(lines[i]) ==> StartsWith(lines[i], m)
  {
    match Margin(lines)
    case None => ""
    case Some(m) => m
  }

  function DedentLine(l: string, margin: string): string
    requires !TabSpaceOnly(l) ==> StartsWith(l, margin)
  {
    if TabSpaceOnly(l) then "" else l[|margin|..]
  }

  function DedentAll(lines: seq<string>, m: string): (r: seq<string>)
    requires forall i :: 0 <= i < |lines| && !TabSpaceOnly(lines[i]) ==> StartsWith(lines[i], m)
    ensures |r| == |lines|
    ensures forall i :: 0 <= i < |lines| ==> r[i] == DedentLine(lines[i], m)
  {
    if lines == [] then [] else [DedentLine(lines[0], m)] + DedentAll(lines[1..], m)
  }

  function DedentLines(lines: seq<string>): (r: seq<string>)
    ensures |r| == |lines|
  {
    DedentAll(lines, MarginOrEmpty(lines))
  }

  /** `textwrap.dedent(text)`. */
  function DedentText(text: string): string
  {
    Join(DedentLines(Split(text)))
  }

  function IndentLine(l: string, prefix: string): string
  {
    if IsBlank(l) then l else prefix + l
  }

  function IndentLines(lines: seq<string>, prefix: string): (r: seq<string>)
    ensures |r| == |lines|
    ensures forall i :: 0 <= i < |lines| ==> r[i] == IndentLine(lines[i], prefix)
  {
    if lines == [] then [] else [IndentLine(lines[0], prefix)] + IndentLines(lines[1..], prefix)
  }

  /**
   * The line boundaries of `str.splitlines`: "\n", "\r", "\x0b", "\x0c",
   * "\x1c", "\x1d", "\x1e", "\x85", U+2028 and U+2029 ("\r\n" is one boundary).
   */
  predicate IsLineBreak(c: char)
  {
    c == '\n' || c == '\r' || c == '\U{0b}' || c == '\U{0c}' || ('\U{1c}' <= c <= '\U{1e}')
    || c == '\U{85}' || c == '\U{2028}' || c == '\U{2029}'
  }

  /** A text whose only line boundaries are newlines. */
  predicate NewlineBreaksOnly(s: string)
  {
    forall c :: c in s && IsLineBreak(c) ==> c == '\n'
  }

  /** A text without any line boundary. */
  predicate NoLineBreak(s: string)
  {
    forall c :: c in s ==> !IsLineBreak(c)
  }

  lemma SpacesNoLineBreak(n: int)
    ensures NoLineBreak(Spaces(n))
  {
  }

  /** Two lines without boundaries joined by a newline have only newline boundaries. */
  lemma NewlineJoined(a: string, b: string)
    requires NoLineBreak(a) && NoLineBreak(b)
    ensures NewlineBreaksOnly(a + "\n" + b)
  {
    var c := a + "\n" + b;
    assert forall j :: 0 <= j < |c| ==> c[j] == if j < |a| then a[j] else if j == |a| then '\n' else b[j - |a| - 1];
  }

  /** Every character of a line of `split("\n")` is a character of the text. */
  lemma {:induction false} SplitChars(s: string)
    ensures forall k, c :: 0 <= k < |Split(s)| && c in Split(s)[k] ==> c in s
    decreases |s|
  {
    if s != [] {
      SplitChars(s[1..]);
      var r, t := Split(s), Split(s[1..]);
      assert forall c :: c in s[1..] ==> c in s;
      if s[0] == '\n' {
        assert r == [""] + t;
        assert forall k :: 1 <= k < |r| ==> r[k] == t[k - 1];
      } else {
        assert r == [[s[0]] + t[0]] + t[1..];
        assert forall k :: 1 <= k < |r| ==> r[k] == t[k];
      }
    }
  }

  /** The lines of `split("\n")` have no boundary when newlines are the text's only ones. */
  lemma SplitNoBreaks(s: string)
    requires NewlineBreaksOnly(s)
    ensures forall k :: 0 <= k < |Split(s)| ==> NoLineBreak(Split(s)[k])
  {
    SplitChars(s);
  }

  /** Lines without boundaries joined by newlines have only newline boundaries. */
  lemma {:induction false} JoinNoBreaks(lines: seq<string>)
    requires forall k :: 0 <= k < |lines| ==> NoLineBreak(lines[k])
    ensures NewlineBreaksOnly(Join(lines))
  {
    if |lines| > 1 {
      JoinNoBreaks(lines[1..]);
      assert Join(lines) == lines[0] + "\n" + Join(lines[1..]);
    }
  }

  /** Where the first line boundary of `s` is, or `|s|` when it has none. */
  function BreakAt(s: string): (i: nat)
    ensures i <= |s|
    ensures forall j :: 0 <= j < i ==> !IsLineBreak(s[j])
    ensures i < |s| ==> IsLineBreak(s[i])
  {
    if s == [] || IsLineBreak(s[0]) then 0 else 1 + BreakAt(s[1..])
  }

  /** Where the first line of `s` ends, its boundary included. */
  function LineEnd(s: string): (e: nat)
    ensures BreakAt(s) <= e <= |s|
    ensures s != [] ==> e > 0
  {
    var i := BreakAt(s);
    if i == |s| then i
    else if s[i] == '\r' && i + 1 < |s| && s[i + 1] == '\n' then i + 2
    else i + 1
  }

  /** `s.splitlines(True)`: the lines of `s`, each with its boundary; they put `s` back together. */
  function SplitLines(s: string): (r: seq<string>)
    ensures Flatten(r) == s
    ensures forall k :: 0 <= k < |r| ==> r[k] != ""
    decreases |s|
  {
    if s == [] then []
    else
      var e := LineEnd(s);
      var r := [s[..e]] + SplitLines(s[e..]);
      assert r[1..] == SplitLines(s[e..]);
      assert s[..e] + s[e..] == s;
      r
  }

  /** `"".join(pieces)`. */
  function Flatten(pieces: seq<string>): string
  {
    if pieces == [] then "" else pieces[0] + Flatten(pieces[1..])
  }

  /** `textwrap.indent(text, prefix)`: lines that are not blank get the prefix. */
  function IndentText(text: string, prefix: string): string
  {
    Flatten(IndentLines(SplitLines(text), prefix))
  }

  /** Indenting takes the first line off and indents the rest on its own. */
  lemma IndentTextStep(text: string, prefix: string)
    requires text != []
    ensures var e := LineEnd(text);
      IndentText(text, prefix) == IndentLine(text[..e], prefix) + IndentText(text[e..], prefix)
  {
    var e := LineEnd(text);
    var ls := IndentLines(SplitLines(text), prefix);
    assert ls[1..] == IndentLines(SplitLines(text[e..]), prefix);
  }

  /** A line that is blank with a boundary after it is blank without it. */
  lemma BlankBeforeBreak(x: string, b: string)
    requires IsBlank(b)
    ensures IsBlank(x + b) <==> IsBlank(x)
  {
    if IsBlank(x) {
      assert forall j :: 0 <= j < |x + b| ==> (x + b)[j] == if j < |x| then x[j] else b[j - |x|];
    } else {
      var k :| 0 <= k < |x| && !IsSpace(x[k]);
      assert (x + b)[k] == x[k];
    }
  }

  /**
   * When newlines are the only boundaries in the text, indenting works line
   * by line on `text.split("\n")`.
   */
  lemma {:induction false} IndentAtNewlines(text: string, prefix: string)
    requires NewlineBreaksOnly(text)
    ensures IndentText(text, prefix) == Join(IndentLines(Split(text), prefix))
    decreases |text|
  {
    if text == [] {
      assert IndentLines([""], prefix) == [""];
    } else {
      var i, e := BreakAt(text), LineEnd(text);
      var x, rest := text[..i], text[e..];
      IndentTextStep(text, prefix);
      assert '\n' !in x by {
        assert forall j :: 0 <= j < |x| ==> x[j] == text[j];
      }
      SplitNoNewline(x);
      if i == |text| {
        assert text[..e] == x == text;
        assert IndentLines([x], prefix) == [IndentLine(x, prefix)];
      } else {
        assert text[i] == '\n' && e == i + 1;
        assert forall c :: c in rest ==> c in text;
        IndentAtNewlines(rest, prefix);
        NewlineCut(text, i);
        IndentNewlineStep(x, rest, prefix);
      }
    }
  }

  /** A text with a newline at `i` is what comes before it, the newline, and what follows. */
  lemma NewlineCut(s: string, i: nat)
    requires i < |s| && s[i] == '\n'
    ensures s == s[..i] + "\n" + s[i + 1..]
    ensures s[..i + 1] == s[..i] + "\n"
  {
    Cut3(s, i, i + 1);
    assert s[i..i + 1] == "\n";
  }

  /** Splitting at a newline and indenting line by line indents the first line with its newline. */
  lemma IndentNewlineStep(x: string, rest: string, prefix: string)
    requires '\n' !in x
    ensures Join(IndentLines(Split(x + "\n" + rest), prefix))
         == IndentLine(x + "\n", prefix) + Join(IndentLines(Split(rest), prefix))
  {
    SplitAppend(x, rest);
    SplitNoNewline(x);
    var t := IndentLines(Split(rest), prefix);
    assert IndentLines([x] + Split(rest), prefix) == [IndentLine(x, prefix)] + t;
    BlankBeforeBreak(x, "\n");
    assert IndentLine(x + "\n", prefix) == IndentLine(x, prefix) + "\n";
    assert Join([IndentLine(x, prefix)] + t) == IndentLine(x, prefix) + "\n" + Join(t);
  }

  /**
   * Two lines without boundaries, neither blank, on each side of a boundary
   * other than "\r\n": indenting prefixes both.
   */
  lemma IndentAtBreak(x: string, c: char, y: string, p: string)
    requires NoLineBreak(x) && NoLineBreak(y) && IsLineBreak(c)
    requires !IsBlank(x) && !IsBlank(y)
    ensures IndentText(x + [c] + y, p) == (p + (x + [c])) + (p + y)
  {
    FirstLineAtBreak(x, c, y);
    IndentTextStep(x + [c] + y, p);
    BlankBeforeBreak(x, [c]);
    IndentLastLine(y, p);
  }

  /** The first line of `x + [c] + y` is `x` with its boundary `c`, when neither side has one. */
  lemma FirstLineAtBreak(x: string, c: char, y: string)
    requires NoLineBreak(x) && NoLineBreak(y) && IsLineBreak(c) && y != []
    ensures var s := x + [c] + y;
      LineEnd(s) == |x| + 1 && s[..|x| + 1] == x + [c] && s[|x| + 1..] == y
  {
    var s := x + [c] + y;
    assert forall j :: 0 <= j < |x| ==> s[j] == x[j];
    assert s[|x|] == c;
    BreakAtUnique(s, |x|);
    assert s[|x| + 1] == y[0] && y[0] in y && y[0] != '\n';
    assert LineEnd(s) == |x| + 1;
    assert s[..|x| + 1] == x + [c];
    assert s[|x| + 1..] == y;
  }

  /** A last line without a boundary gets the prefix when it is not blank. */
  lemma IndentLastLine(y: string, p: string)
    requires NoLineBreak(y) && !IsBlank(y)
    ensures IndentText(y, p) == p + y
  {
    BreakAtUnique(y, |y|);
    assert y[..|y|] == y && y[|y|..] == [];
    IndentTextStep(y, p);
    assert IndentText([], p) == "";
  }

  /** The first character of an indented text that is not empty. */
  lemma IndentTextHead(text: string, prefix: string)
    requires text != []
    ensures var r := IndentText(text, prefix);
      r != [] && (r[0] == text[0] || (prefix != [] && r[0] == prefix[0]))
  {
    IndentTextStep(text, prefix);
  }

  /** The first boundary of `s` is at `i` when none comes before and one is there. */
  lemma BreakAtUnique(s: string, i: nat)
    requires i <= |s|
    requires forall j :: 0 <= j < i ==> !IsLineBreak(s[j])
    requires i < |s| ==> IsLineBreak(s[i])
    ensures BreakAt(s) == i
  {
  }

  /**
   * The first line `q` of `q + rest` is still the first line once a prefix
   * without boundaries goes before it and `rest` is replaced by a text `t`
   * that is empty with it and starts with a newline only when it does.
   */
  lemma LineEndShift(p: string, q: string, rest: string, t: string)
    requires NoLineBreak(p)
    requires q != [] && LineEnd(q + rest) == |q|
    requires rest == [] ==> t == []
    requires t != [] && t[0] == '\n' ==> rest != [] && rest[0] == '\n'
    ensures LineEnd(p + q + t) == |p| + |q|
  {
    var text, s := q + rest, p + q + t;
    var i := BreakAt(text);
    assert forall j :: 0 <= j < |p| ==> s[j] == p[j];
    assert forall j :: 0 <= j < |q| ==> s[|p| + j] == q[j] == text[j];
    if i == |text| {
      assert t == [] && |s| == |p| + |q|;
      BreakAtUnique(s, |s|);
    } else {
      BreakAtUnique(s, |p| + i);
      if t != [] {
        assert s[|p| + |q|] == t[0];
        assert rest[0] == text[|q|];
      }
    }
  }

  /** A text whose first line is `w` splits into `w` and the lines after it. */
  lemma SplitLinesCons(w: string, t: string)
    requires w != [] && LineEnd(w + t) == |w|
    ensures SplitLines(w + t) == [w] + SplitLines(t)
  {
    assert (w + t)[..|w|] == w && (w + t)[|w|..] == t;
  }

  lemma IndentLinesCons(q: string, r: seq<string>, prefix: string)
    ensures IndentLines([q] + r, prefix) == [IndentLine(q, prefix)] + IndentLines(r, prefix)
  {
    assert ([q] + r)[1..] == r;
  }

  /**
   * Indenting keeps the lines of `str.splitlines`: each line of the result is
   * the indented line of the text, for a prefix without line boundaries.
   */
  lemma {:induction false} IndentKeepsLines(text: string, prefix: string)
    requires NoLineBreak(prefix)
    ensures SplitLines(IndentText(text, prefix)) == IndentLines(SplitLines(text), prefix)
    decreases |text|
  {
    if text != [] {
      var e := LineEnd(text);
      var q, rest := text[..e], text[e..];
      Cut2(text, e);
      IndentTextStep(text, prefix);
      IndentKeepsLines(rest, prefix);
      var p := if IsBlank(q) then "" else prefix;
      var t := IndentText(rest, prefix);
      if rest != [] {
        IndentTextHead(rest, prefix);
      }
      LineEndShift(p, q, rest, t);
      SplitLinesCons(p + q, t);
      IndentLinesCons(q, SplitLines(rest), prefix);
      assert IndentLine(q, prefix) == p + q;
      assert SplitLines(text) == [q] + SplitLines(rest);
    }
  }

  /** Dedent keeps the number of lines and maps each line on its own. */
  lemma DedentShape(text: string)
    ensures |Split(DedentText(text))| == |Split(text)|
    ensures Split(DedentText(text)) == DedentLines(Split(text))
  {
    var r := DedentLines(Split(text));
    forall i | 0 <= i < |r| ensures '\n' !in r[i] {
      var l := Split(text)[i];
      if !TabSpaceOnly(l) {
        assert r[i] == l[|MarginOrEmpty(Split(text))|..];
        assert forall c :: c in r[i] ==> c in l;
      }
    }
    SplitJoin(r);
  }

  lemma TabSpaceOnlyIsBlank(l: string)
    requires TabSpaceOnly(l)
    ensures IsBlank(l)
  {
    assert forall i :: 0 <= i < |l| ==> IsTabOrSpace(l[i]);
  }

  lemma {:induction false} LeadShift(p: string, l: string)
    requires TabSpaceOnly(p)
    ensures Lead(p + l) == p + Lead(l)
  {
    if p != [] {
      assert (p + l)[1..] == p[1..] + l;
      LeadShift(p[1..], l);
      assert [p[0]] + (p[1..] + Lead(l)) == p + Lead(l);
    } else {
      assert p + l == l;
    }
  }

  lemma {:induction false} CommonPrefixShift(p: string, a: string, b: string)
    ensures CommonPrefix(p + a, p + b) == p + CommonPrefix(a, b)
  {
    if p != [] {
      assert (p + a)[1..] == p[1..] + a;
      assert (p + b)[1..] == p[1..] + b;
      CommonPrefixShift(p[1..], a, b);
      assert [p[0]] + (p[1..] + CommonPrefix(a, b)) == p + CommonPrefix(a, b);
    } else {
      assert p + a == a && p + b == b;
    }
  }

  /** Lines that are empty or hold something other than whitespace. */
  predicate NoWhitespaceOnlyLines(lines: seq<string>)
  {
    forall i :: 0 <= i < |lines| ==> lines[i] == "" || !IsBlank(lines[i])
  }

  /** What indenting does to one line that is empty or not blank. */
  lemma IndentedLine(l: string, p: string)
    requires TabSpaceOnly(p)
    requires l == "" || !IsBlank(l)
    ensures l == "" ==> IndentLine(l, p) == "" && TabSpaceOnly(IndentLine(l, p))
    ensures l != "" ==> IndentLine(l, p) == p + l && !TabSpaceOnly(l) && !TabSpaceOnly(p + l)
    ensures l != "" ==> Lead(p + l) == p + Lead(l)
  {
    if l != "" {
      if TabSpaceOnly(l) { TabSpaceOnlyIsBlank(l); }
      var k :| 0 <= k < |l| && !IsTabOrSpace(l[k]);
      assert (p + l)[|p| + k] == l[k];
      LeadShift(p, l);
    }
  }

  lemma {:induction false} MarginShift(lines: seq<string>, p: string)
    requires TabSpaceOnly(p)
    requires NoWhitespaceOnlyLines(lines)
    ensures Margin(IndentLines(lines, p)) ==
      (if Margin(lines).None? then None else Some(p + Margin(lines).value))
  {
    if lines != [] {
      var il := IndentLines(lines, p);
      assert IndentLines(lines[1..], p) == il[1..];
      assert NoWhitespaceOnlyLines(lines[1..]) by {
        forall i | 0 <= i < |lines[1..]| ensures lines[1..][i] == "" || !IsBlank(lines[1..][i]) {
          assert lines[1..][i] == lines[i + 1];
        }
      }
      MarginShift(lines[1..], p);
      assert Margin(il) == MarginStep(il[0], Margin(il[1..]));
      assert Margin(lines) == MarginStep(lines[0], Margin(lines[1..]));
      IndentedLine(lines[0], p);
      var rest := Margin(lines[1..]);
      if lines[0] != "" && rest.Some? {
        CommonPrefixShift(p, Lead(lines[0]), rest.value);
      }
    }
  }

  lemma DedentIndentedLine(l: string, p: string, m: string)
    requires TabSpaceOnly(p)
    requires l == "" || !IsBlank(l)
    requires l != "" ==> StartsWith(l, m)
    ensures l == "" ==> IndentLine(l, p) == "" && DedentLine(IndentLine(l, p), "") == ""
    ensures l != "" ==> StartsWith(IndentLine(l, p), p + m) && DedentLine(IndentLine(l, p), p + m) == DedentLine(l, m)
  {
    IndentedLine(l, p);
    if l != "" {
      assert (p + l)[|p + m|..] == l[|m|..];
    }
  }

  /**
   * Indenting by spaces does not change what dedent produces, provided no
   * line is whitespace only without being empty (`textwrap.indent` leaves
   * such lines alone while `textwrap.dedent` empties them).
   */
  lemma IndentThenDedent(text: string, depth: int)
    requires NewlineBreaksOnly(text)
    requires NoWhitespaceOnlyLines(Split(text))
    ensures DedentText(IndentText(text, Spaces(depth))) == DedentText(text)
  {
    IndentAtNewlines(text, Spaces(depth));
    var ls := Split(text);
    var p := Spaces(depth);
    var il := IndentLines(ls, p);
    forall i | 0 <= i < |il| ensures '\n' !in il[i] {
      assert forall c :: c in il[i] ==> c in p || c in ls[i];
    }
    SplitJoin(il);
    MarginShift(ls, p);
    var m := MarginOrEmpty(ls);
    assert MarginOrEmpty(il) == (if Margin(ls).None? then "" else p + m);
    var a, b := DedentLines(il), DedentLines(ls);
    forall i | 0 <= i < |ls| ensures a[i] == b[i] {
      assert a[i] == DedentLine(il[i], MarginOrEmpty(il));
      assert b[i] == DedentLine(ls[i], m);
      DedentIndentedLine(ls[i], p, m);
    }
    assert a == b;
  }
}
