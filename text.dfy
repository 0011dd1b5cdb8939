/**
 * The Python string operations the pipeline relies on: `str.isspace`,
 * `lstrip`/`rstrip`/`strip`, `split("\n")`/`"\n".join`, `startswith`, `find`
 * and `int`/`str` on decimal numbers.
 */
module Text {

  /** `str.isspace` for one character: the characters Python treats as whitespace. */
  predicate IsSpace(c: char)
  {
    c == ' ' || ('\t' <= c <= '\r') || ('\U{1c}' <= c <= '\U{1f}') || c == '\U{85}' || c == '\U{a0}'
    || c == '\U{1680}' || ('\U{2000}' <= c <= '\U{200a}') || c == '\U{2028}' || c == '\U{2029}'
    || c == '\U{202f}' || c == '\U{205f}' || c == '\U{3000}'
  }

  /** The characters `textwrap` counts as indentation. */
  predicate IsTabOrSpace(c: char)
  {
    c == ' ' || c == '\t'
  }

  predicate IsDigit(c: char)
  {
    '0' <= c <= '9'
  }

  predicate IsLower(c: char)
  {
    'a' <= c <= 'z'
  }

  predicate StartsWith(s: string, prefix: string)
  {
    |prefix| <= |s| && s[..|prefix|] == prefix
  }

  /** A string that starts with `prefix` is `prefix` and what follows it. */
  lemma StartsWithSplit(s: string, prefix: string)
    requires StartsWith(s, prefix)
    ensures s == prefix + s[|prefix|..]
  {
    assert s == s[..|prefix|] + s[|prefix|..];
  }

  predicate EndsWith(s: string, suffix: string)
  {
    |suffix| <= |s| && s[|s| - |suffix|..] == suffix
  }

  /** `s.lstrip()`: the suffix of `s` after its leading whitespace. */
  function LStrip(s: string): (r: string)
    ensures |r| <= |s| && r == s[|s| - |r|..]
    ensures forall i :: 0 <= i < |s| - |r| ==> IsSpace(s[i])
    ensures r == [] || !IsSpace(r[0])
  {
    if s != [] && IsSpace(s[0]) then LStrip(s[1..]) else s
  }

  /** `s.rstrip()`: the prefix of `s` before its trailing whitespace. */
  function RStrip(s: string): (r: string)
    ensures |r| <= |s| && r == s[..|r|]
    ensures forall i :: |r| <= i < |s| ==> IsSpace(s[i])
    ensures r == [] || !IsSpace(r[|r| - 1])
  {
    if s != [] && IsSpace(s[|s| - 1]) then RStrip(s[..|s| - 1]) else s
  }

  function Strip(s: string): string
  {
    RStrip(LStrip(s))
  }

  /** `not s.strip()`: the line holds nothing but whitespace (see `BlankIffStripEmpty`). */
  predicate IsBlank(s: string)
  {
    forall i :: 0 <= i < |s| ==> IsSpace(s[i])
  }

  /** Stripping leaves nothing exactly when the line is blank. */
  lemma {:induction false} BlankIffStripEmpty(s: string)
    ensures IsBlank(s) <==> Strip(s) == ""
  {
    var l := LStrip(s);
    if l == [] {
      assert forall i :: 0 <= i < |s| ==> IsSpace(s[i]);
    } else {
      assert !IsSpace(l[0]);
      assert Strip(s) != [] by {
        assert Strip(s) == RStrip(l);
        assert !IsSpace(s[|s| - |l|]);
      }
    }
  }

  /** Number of leading whitespace characters: `len(line) - len(line.lstrip())`. */
  function IndentWidth(s: string): (r: nat)
    ensures r <= |s|
  {
    |s| - |LStrip(s)|
  }

  /** `s.split("\n")`: never empty, and no piece holds a newline. */
  function Split(s: string): (r: seq<string>)
    ensures |r| >= 1
    ensures forall i :: 0 <= i < |r| ==> '\n' !in r[i]
  {
    if s == [] then [""]
    else
      var t := Split(s[1..]);
      if s[0] == '\n' then [""] + t else [[s[0]] + t[0]] + t[1..]
  }

  /** `sep.join(items)`. */
  function JoinWith(sep: string, items: seq<string>): string
  {
    if items == [] then ""
    else if |items| == 1 then items[0]
    else items[0] + sep + JoinWith(sep, items[1..])
  }

  /** `"\n".join(lines)`. */
  function Join(lines: seq<string>): string
  {
    JoinWith("\n", lines)
  }

  lemma {:induction false} SplitNoNewline(s: string)
    requires '\n' !in s
    ensures Split(s) == [s]
  {
    if s != [] {
      SplitNoNewline(s[1..]);
      assert [s[0]] + s[1..] == s;
    }
  }

  /** A text with a newline splits into at least two lines. */
  lemma {:induction false} SplitNewline(s: string)
    requires '\n' in s
    ensures |Split(s)| >= 2
  {
    if s[0] != '\n' {
      assert '\n' in s[1..];
      SplitNewline(s[1..]);
    }
  }

  /** Splitting at a newline splits the two sides independently. */
  lemma {:induction false} SplitAppend(x: string, y: string)
    ensures Split(x + "\n" + y) == Split(x) + Split(y)
  {
    if x == [] {
      assert x + "\n" + y == "\n" + y;
      assert ("\n" + y)[1..] == y;
    } else {
      var s := x + "\n" + y;
      assert s[1..] == x[1..] + "\n" + y;
      SplitAppend(x[1..], y);
      if x[0] != '\n' {
        assert [x[0]] + Split(x[1..])[0] == Split(x)[0];
      }
    }
  }

  /** Joining then splitting gives the lines back. */
  lemma {:induction false} SplitJoin(lines: seq<string>)
    requires |lines| >= 1
    requires forall i :: 0 <= i < |lines| ==> '\n' !in lines[i]
    ensures Split(Join(lines)) == lines
  {
    if |lines| == 1 {
      SplitNoNewline(lines[0]);
    } else {
      SplitJoin(lines[1..]);
      SplitAppend(lines[0], Join(lines[1..]));
      SplitNoNewline(lines[0]);
      assert lines == [lines[0]] + lines[1..];
    }
  }

  /** Splitting then joining gives the text back. */
  lemma {:induction false} JoinSplit(s: string)
    ensures Join(Split(s)) == s
  {
    if s != [] {
      JoinSplit(s[1..]);
      var t := Split(s[1..]);
      if s[0] == '\n' {
        assert Split(s) == [""] + t;
        assert Join([""] + t) == "" + "\n" + Join(t);
        assert s == "\n" + s[1..];
      } else {
        var r := Split(s);
        assert r == [[s[0]] + t[0]] + t[1..];
        if |t| == 1 {
          assert Join(r) == [s[0]] + t[0];
        } else {
          assert Join(t) == t[0] + "\n" + Join(t[1..]);
          assert r[1..] == t[1..];
          assert Join(r) == ([s[0]] + t[0]) + "\n" + Join(t[1..]);
        }
        assert s == [s[0]] + s[1..];
      }
    }
  }

  lemma {:induction false} JoinWithAppend(sep: string, a: seq<string>, b: seq<string>)
    requires a != [] && b != []
    ensures JoinWith(sep, a + b) == JoinWith(sep, a) + sep + JoinWith(sep, b)
  {
    if |a| == 1 {
      assert (a + b)[1..] == b;
    } else {
      assert (a + b)[1..] == a[1..] + b;
      JoinWithAppend(sep, a[1..], b);
    }
  }

  lemma JoinAppend(a: seq<string>, b: seq<string>)
    requires a != [] && b != []
    ensures Join(a + b) == Join(a) + "\n" + Join(b)
  {
    JoinWithAppend("\n", a, b);
  }

  lemma JoinTwo(a: string, b: string)
    ensures Join([a, b]) == a + "\n" + b
  {
    assert [a, b][1..] == [b];
    assert JoinWith("\n", [b]) == b;
  }

  lemma Join3(a: string, b: string, c: string)
    ensures Join([a, b, c]) == a + "\n" + (b + "\n" + c)
  {
    assert [a, b, c][1..] == [b, c];
    assert [b, c][1..] == [c];
    assert JoinWith("\n", [c]) == c;
    assert JoinWith("\n", [b, c]) == b + "\n" + c;
  }

  /** A string cut in three places is put back together by concatenation. */
  lemma Cut3(s: string, i: nat, j: nat)
    requires i <= j <= |s|
    ensures s == s[..i] + (s[i..j] + s[j..])
  {
  }

  /** Python's `<=` on strings: code point by code point, a proper prefix first. */
  predicate LexLe(a: string, b: string)
  {
    a == [] || (b != [] && (a[0] < b[0] || (a[0] == b[0] && LexLe(a[1..], b[1..]))))
  }

  lemma {:induction false} LexLeTotal(a: string, b: string)
    ensures LexLe(a, b) || LexLe(b, a)
  {
    if a != [] && b != [] && a[0] == b[0] {
      LexLeTotal(a[1..], b[1..]);
    }
  }

  lemma {:induction false} LexLeTrans(a: string, b: string, c: string)
    requires LexLe(a, b) && LexLe(b, c)
    ensures LexLe(a, c)
  {
    if a != [] && b != [] && c != [] && a[0] == b[0] == c[0] {
      LexLeTrans(a[1..], b[1..], c[1..]);
    }
  }

  predicate SortedStrings(s: seq<string>)
  {
    forall i, j :: 0 <= i < j < |s| ==> LexLe(s[i], s[j])
  }

  /** Inserts `x` into a sorted sequence before the first element it does not exceed. */
  function InsertSorted(x: string, s: seq<string>): (r: seq<string>)
    requires SortedStrings(s)
    ensures SortedStrings(r)
    ensures multiset(r) == multiset(s) + multiset{x}
  {
    if s == [] then [x]
    else if LexLe(x, s[0]) then
      InsertAtHead(x, s);
      [x] + s
    else
      var rest := InsertSorted(x, s[1..]);
      InsertAfterHead(x, s, rest);
      [s[0]] + rest
  }

  lemma InsertAtHead(x: string, s: seq<string>)
    requires SortedStrings(s) && s != [] && LexLe(x, s[0])
    ensures SortedStrings([x] + s)
  {
    forall j | 0 <= j < |s| ensures LexLe(x, s[j]) {
      if j > 0 { LexLeTrans(x, s[0], s[j]); }
    }
    assert forall j :: 1 <= j < |s| + 1 ==> ([x] + s)[j] == s[j - 1];
  }

  lemma InsertAfterHead(x: string, s: seq<string>, rest: seq<string>)
    requires SortedStrings(s) && s != [] && !LexLe(x, s[0])
    requires SortedStrings(rest) && multiset(rest) == multiset(s[1..]) + multiset{x}
    ensures SortedStrings([s[0]] + rest)
    ensures multiset([s[0]] + rest) == multiset(s) + multiset{x}
  {
    LexLeTotal(x, s[0]);
    assert s == [s[0]] + s[1..];
    forall j | 0 <= j < |rest| ensures LexLe(s[0], rest[j]) {
      var y := rest[j];
      assert y in multiset(rest);
      assert y == x || y in multiset(s[1..]);
      if y != x {
        var i :| 0 <= i < |s[1..]| && s[1..][i] == y;
        assert s[i + 1] == y;
      }
    }
    assert forall j :: 1 <= j < |rest| + 1 ==> ([s[0]] + rest)[j] == rest[j - 1];
  }

  /** `sorted(names)`: the same names, in ascending order. */
  function Sorted(s: seq<string>): (r: seq<string>)
    ensures SortedStrings(r)
    ensures multiset(r) == multiset(s)
  {
    if s == [] then []
    else
      assert s == [s[0]] + s[1..];
      InsertSorted(s[0], Sorted(s[1..]))
  }

  /** Python's `" " * n`: empty for `n <= 0`. */
  function Spaces(n: int): (r: string)
    ensures |r| == (if n <= 0 then 0 else n)
    ensures forall i :: 0 <= i < |r| ==> r[i] == ' '
  {
    if n <= 0 then "" else seq(n, _ => ' ')
  }

  predicate OccursAt(s: string, p: string, j: int)
  {
    0 <= j && j + |p| <= |s| && s[j..j + |p|] == p
  }

  /** `s.find(p)`: the first index where `p` occurs in `s`, or -1. */
  function Find(s: string, p: string): (r: int)
    ensures r == -1 || OccursAt(s, p, r)
    ensures forall j :: 0 <= j && (r == -1 || j < r) ==> !OccursAt(s, p, j)
  {
    FindFrom(s, p, 0)
  }

  function FindFrom(s: string, p: string, i: nat): (r: int)
    requires forall j :: 0 <= j < i ==> !OccursAt(s, p, j)
    ensures r == -1 || (i <= r && OccursAt(s, p, r))
    ensures forall j :: 0 <= j && (r == -1 || j < r) ==> !OccursAt(s, p, j)
    decreases |s| + 1 - i
  {
    if i + |p| > |s| then -1
    else if s[i..i + |p|] == p then i
    else FindFrom(s, p, i + 1)
  }

  /** Python's `p in s` on strings. */
  predicate Contains(s: string, p: string)
  {
    Find(s, p) >= 0
  }

  function DigitValue(c: char): nat
  {
    if IsDigit(c) then (c - '0') as nat else 0
  }

  function DigitChar(d: nat): (c: char)
    requires d < 10
    ensures IsDigit(c) && DigitValue(c) == d
  {
    '0' + d as char
  }

  /** `int(ds)` for a string of decimal digits. */
  function DigitsValue(ds: string): nat
  {
    if ds == [] then 0 else DigitsValue(ds[..|ds| - 1]) * 10 + DigitValue(ds[|ds| - 1])
  }

  predicate AllDigits(s: string)
  {
    forall i :: 0 <= i < |s| ==> IsDigit(s[i])
  }

  /** `str(n)` for a natural number. */
  function NatToString(n: nat): (r: string)
    ensures |r| >= 1 && AllDigits(r)
  {
    if n < 10 then [DigitChar(n)] else NatToString(n / 10) + [DigitChar(n % 10)]
  }

  /** `int(str(n)) == n`. */
  lemma {:induction false} NatToStringRoundTrip(n: nat)
    ensures DigitsValue(NatToString(n)) == n
  {
    if n >= 10 {
      var r := NatToString(n);
      assert r[..|r| - 1] == NatToString(n / 10);
      NatToStringRoundTrip(n / 10);
    }
  }

  /** `str(n)` for any integer, with a minus sign for negatives. */
  function IntToString(n: int): string
  {
    if n < 0 then "-" + NatToString(-n) else NatToString(n)
  }

  /** `lstrip` removes exactly the spaces put before text that does not start with whitespace. */
  lemma LStripAfterSpaces(n: int, x: string)
    requires x == [] || !IsSpace(x[0])
    ensures LStrip(Spaces(n) + x) == x
    ensures IndentWidth(Spaces(n) + x) == |Spaces(n)|
  {
    var s, k := Spaces(n) + x, |Spaces(n)|;
    assert forall i :: 0 <= i < k ==> s[i] == ' ';
    assert k < |s| ==> s[k] == x[0];
    LStripUnique(s, k);
    assert s[k..] == x;
  }

  /** The whitespace before the `k`-th character, and not that character, determines `lstrip`. */
  lemma {:induction false} LStripUnique(s: string, k: nat)
    requires k <= |s|
    requires forall i :: 0 <= i < k ==> IsSpace(s[i])
    requires k == |s| || !IsSpace(s[k])
    ensures LStrip(s) == s[k..]
    decreases k
  {
    if k > 0 {
      assert s[1..][k - 1..] == s[k..];
      LStripUnique(s[1..], k - 1);
    }
  }

  lemma DropNoNewline(s: string, k: nat)
    requires '\n' !in s && k <= |s|
    ensures '\n' !in s[k..]
  {
    assert forall i :: 0 <= i < |s| - k ==> s[k..][i] == s[k + i];
  }

  lemma SpacesNoNewline(n: int)
    ensures '\n' !in Spaces(n)
  {
  }

  /** A line whose indentation is made of spaces only. */
  predicate SpaceIndented(l: string)
  {
    forall i :: 0 <= i < IndentWidth(l) ==> l[i] == ' '
  }

  lemma SpaceIndentedSplit(l: string)
    requires SpaceIndented(l)
    ensures l == Spaces(IndentWidth(l)) + LStrip(l)
  {
    var n, r := IndentWidth(l), LStrip(l);
    assert r == l[n..];
    SpacesPrefix(l, n);
    Cut2(l, n);
  }

  lemma Cut2(s: string, i: nat)
    requires i <= |s|
    ensures s == s[..i] + s[i..]
  {
  }

  lemma SpacesPrefix(l: string, n: nat)
    requires n <= |l| && forall i :: 0 <= i < n ==> l[i] == ' '
    ensures l[..n] == Spaces(n)
  {
  }
}
