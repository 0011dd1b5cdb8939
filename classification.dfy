/**
 * The dispatcher: `classify` walks one shared stream of numbered lines and,
 * at every position, offers it to each registered detector except `none`,
 * in registration order. The detectors run one after the other on the same
 * stream, so one that comes after a claimant sees what the claimant left.
 * No claim falls back to the `none` detector; two or more claims raise.
 */
module Classification {
  import opened Common
  import opened Text
  import opened Stream
  import opened Protocol
  import Doctest
  import IPython
  import Markdown
  import Rst
  import Plain

  /** The detection functions of the notation plugins. */
  datatype Detector = DoctestDetector | IPythonDetector | MarkdownDetector | RstDetector | NoneDetector

  /** The name each detector puts in its fragments. */
  function Notation(d: Detector): string
  {
    match d
    case DoctestDetector => Doctest.Name
    case IPythonDetector => IPython.Name
    case MarkdownDetector => Markdown.Name
    case RstDetector => Rst.Name
    case NoneDetector => Plain.Name
  }

  /** How far past the last claimed line each detector's range ends, beyond one. */
  function Extra(d: Detector): int
  {
    if d == MarkdownDetector then 1 else 0
  }

  /** What calling detector `d` does to the remaining lines. */
  function DetectStep(d: Detector, rem: seq<NumberedLine>): (s: Step)
    ensures Sound(rem, s, Notation(d), Extra(d))
  {
    match d
    case DoctestDetector => Doctest.DetectSpec(rem)
    case IPythonDetector => IPython.DetectSpec(rem)
    case MarkdownDetector => Markdown.DetectSpec(rem)
    case RstDetector => Rst.DetectSpec(rem)
    case NoneDetector => Plain.DetectSpec(rem)
  }

  /** Calls detector `d` on the stream. */
  method DetectWith(d: Detector, lines: Peekable<NumberedLine>) returns (r: Detection)
    requires lines.Valid()
    modifies lines
    ensures lines.Valid()
    ensures r == DetectStep(d, old(lines.Remaining())).detection
    ensures lines.Remaining() == DetectStep(d, old(lines.Remaining())).rest
  {
    match d
    case DoctestDetector => r := Doctest.Detect(lines);
    case IPythonDetector => r := IPython.Detect(lines);
    case MarkdownDetector => r := Markdown.Detect(lines);
    case RstDetector => r := Rst.Detect(lines);
    case NoneDetector => r := Plain.Detect(lines);
  }

  /**
   * The detector registered under `none` is the fallback detector, which
   * claims a line whenever one is left; with any other, `classify` would
   * yield `None` without consuming anything and never stop.
   */
  predicate NoneIsFallback(items: seq<(string, Detector)>)
  {
    forall i :: 0 <= i < |items| && items[i].0 == Plain.Name ==> items[i].1 == NoneDetector
  }

  /** `detection_funcs["none"]`. */
  function Lookup(items: seq<(string, Detector)>, name: string): (r: Option<Detector>)
    ensures r.None? <==> forall i :: 0 <= i < |items| ==> items[i].0 != name
    ensures r.Some? ==> exists i :: 0 <= i < |items| && items[i] == (name, r.value)
  {
    if items == [] then None
    else if items[0].0 == name then Some(items[0].1)
    else
      var r := Lookup(items[1..], name);
      assert forall i :: 1 <= i < |items| ==> items[i] == items[1..][i - 1];
      r
  }

  /** A detector that claimed, under its registered name, and what it did to the stream. */
  datatype Claimant = Claimant(name: string, detector: Detector, step: Step)

  /** The claims made so far, the lines left after the last detector ran, and what it raised. */
  datatype Offers = Offers(claims: seq<Claimant>, rest: seq<NumberedLine>, error: Option<Error>)

  /** A detector that declines leaves the stream where it was. */
  ghost predicate DeclineKeeps(detect: (Detector, seq<NumberedLine>) -> Step)
  {
    forall d, rem :: detect(d, rem).detection.Declined? ==> detect(d, rem).rest == rem
  }

  lemma DetectStepKeeps()
    ensures DeclineKeeps(DetectStep)
  {
    forall d, rem ensures DetectStep(d, rem).detection.Declined? ==> DetectStep(d, rem).rest == rem {
      assert Sound(rem, DetectStep(d, rem), Notation(d), Extra(d));
    }
  }

  /**
   * The generator inside `classify`, drained by the dict comprehension: the
   * detectors of `items[i..]` other than `none` run in turn, each on what
   * the previous one left; a raise ends the pass. `claims` are the claims
   * of `items[..i]`. The detectors' behaviour is `detect`, which is
   * `DetectStep` in `classify`.
   */
  function OfferFrom(detect: (Detector, seq<NumberedLine>) -> Step, items: seq<(string, Detector)>, i: nat,
                     rem: seq<NumberedLine>, claims: seq<Claimant>): (o: Offers)
    requires i <= |items| && DeclineKeeps(detect)
    ensures |o.claims| >= |claims| && o.claims[..|claims|] == claims
    ensures o.error.None? && |o.claims| == |claims| ==> o.rest == rem
    ensures |o.claims| > |claims| ==>
      var c := o.claims[|claims|];
      c.step == detect(c.detector, rem) && c.step.detection.Claimed?
    ensures |o.claims| == |claims| + 1 && o.error.None? ==> o.rest == o.claims[|claims|].step.rest
    decreases |items| - i
  {
    if i == |items| then Offers(claims, rem, None)
    else if items[i].0 == Plain.Name then OfferFrom(detect, items, i + 1, rem, claims)
    else
      var s := detect(items[i].1, rem);
      if s.detection.Failed? then Offers(claims, s.rest, Some(s.detection.error))
      else if s.detection.Declined? then OfferFrom(detect, items, i + 1, s.rest, claims)
      else
        var c := Claimant(items[i].0, items[i].1, s);
        var o := OfferFrom(detect, items, i + 1, s.rest, claims + [c]);
        assert o.claims[..|claims|] == (claims + [c])[..|claims|];
        o
  }

  /** `OfferFrom` at a detector, unfolded once. */
  lemma OfferFromUnfold(detect: (Detector, seq<NumberedLine>) -> Step, items: seq<(string, Detector)>, i: nat,
                        rem: seq<NumberedLine>, claims: seq<Claimant>)
    requires i < |items| && DeclineKeeps(detect)
    ensures var o := OfferFrom(detect, items, i, rem, claims);
      if items[i].0 == Plain.Name then o == OfferFrom(detect, items, i + 1, rem, claims)
      else
        var s := detect(items[i].1, rem);
        if s.detection.Failed? then o == Offers(claims, s.rest, Some(s.detection.error))
        else if s.detection.Declined? then o == OfferFrom(detect, items, i + 1, s.rest, claims)
        else o == OfferFrom(detect, items, i + 1, s.rest, claims + [Claimant(items[i].0, items[i].1, s)])
  {
  }

  /** Once every detector has been offered the stream, the pass ends where it is. */
  lemma OfferEnd(detect: (Detector, seq<NumberedLine>) -> Step, items: seq<(string, Detector)>,
                 rem: seq<NumberedLine>, claims: seq<Claimant>)
    requires DeclineKeeps(detect)
    ensures OfferFrom(detect, items, |items|, rem, claims) == Offers(claims, rem, None)
  {
  }

  /** The pass `classify` makes over the detectors. */
  function Offer(items: seq<(string, Detector)>, rem: seq<NumberedLine>): (o: Offers)
    ensures o.error.None? && o.claims == [] ==> o.rest == rem
    ensures o.claims != [] ==> Covers(rem, o.claims[0].step)
    ensures |o.claims| == 1 && o.error.None? ==> o.rest == o.claims[0].step.rest
  {
    DetectStepKeeps();
    var o := OfferFrom(DetectStep, items, 0, rem, []);
    if o.claims != [] then
      var c := o.claims[0];
      assert c.step == DetectStep(c.detector, rem);
      SoundCovers(rem, c.step, Notation(c.detector), Extra(c.detector));
      o
    else o
  }

  function Names(claims: seq<Claimant>): (r: seq<string>)
    ensures |r| == |claims|
    ensures forall i :: 0 <= i < |claims| ==> r[i] == claims[i].name
  {
    if claims == [] then [] else [claims[0].name] + Names(claims[1..])
  }

  lemma NamesAppend(claims: seq<Claimant>, c: Claimant)
    ensures Names(claims + [c]) == Names(claims) + [c.name]
  {
    assert forall i :: 0 <= i < |claims| ==> (claims + [c])[i] == claims[i];
  }

  /** `repr` of a numbered line, for a text without quotes or backslashes. */
  function LineRepr(l: NumberedLine): string
  {
    "(" + IntToString(l.0) + ", '" + l.1 + "')"
  }

  /**
   * The error raised when several detectors claim: it names the claimants in
   * sorted order and shows the line the stream is now at. At the end of the
   * stream `peek` raises `StopIteration`, which a generator turns into a
   * `RuntimeError` of its own.
   */
  function Conflict(names: seq<string>, rest: seq<NumberedLine>): (e: Error)
    ensures e.RuntimeError?
    ensures rest == [] <==> e.message == "generator raised StopIteration"
    ensures rest != [] ==> StartsWith(e.message, "cannot classify line: ")
    ensures rest != [] ==> EndsWith(e.message, " claim it: " + LineRepr(rest[0]))
  {
    if rest == [] then RuntimeError("generator raised StopIteration")
    else
      var head := "cannot classify line: ";
      var tail := " claim it: " + LineRepr(rest[0]);
      var m := head + JoinWith(", ", Sorted(names)) + tail;
      assert m[..|head|] == head;
      assert m[|m| - |tail|..] == tail;
      RuntimeError(m)
  }

  /**
   * Between its fixed opening and the line, a conflict message lists exactly
   * the claimants' names, in ascending order, separated by commas.
   */
  lemma ConflictNamesSorted(names: seq<string>, rest: seq<NumberedLine>)
    requires rest != []
    ensures exists s :: SortedStrings(s) && multiset(s) == multiset(names) &&
                        Conflict(names, rest).message == "cannot classify line: " + JoinWith(", ", s) + " claim it: " + LineRepr(rest[0])
  {
    var s := Sorted(names);
    assert SortedStrings(s) && multiset(s) == multiset(names);
  }

  /**
   * One pass of the loop in `classify`, on a stream that is not exhausted:
   * a raise ends it; no claim hands the stream to the `none` detector, a
   * missing one raising `KeyError`; two or more claims raise; a single claim
   * is the result, and the stream is left where the pass left it.
   */
  function RoundSpec(items: seq<(string, Detector)>, rem: seq<NumberedLine>): (s: Step)
    requires rem != [] && NoneIsFallback(items)
    ensures !s.detection.Declined?
    ensures s.detection.Claimed? ==> Covers(rem, s) && |s.rest| < |rem|
  {
    var o := Offer(items, rem);
    if o.error.Some? then Step(Failed(o.error.value), 0, o.rest)
    else if o.claims == [] then
      var d := Lookup(items, Plain.Name);
      if d.None? then Step(Failed(KeyError(Plain.Name)), 0, rem)
      else
        var s := DetectStep(d.value, rem);
        SoundCovers(rem, s, Notation(d.value), Extra(d.value));
        s
    else if |o.claims| > 1 then Step(Failed(Conflict(Names(o.claims), o.rest)), 0, o.rest)
    else
      Step(o.claims[0].step.detection, o.claims[0].step.claimed, o.rest)
  }

  /** The fragments `classify` yields, and the error that ended it, if any. */
  datatype Outcome = Outcome(fragments: seq<Fragment>, error: Option<Error>)

  /** `classify` as a specification: passes of the loop while lines are left. */
  function ClassifySpec(items: seq<(string, Detector)>, rem: seq<NumberedLine>): (out: Outcome)
    requires NoneIsFallback(items)
    decreases |rem|
  {
    if rem == [] then Outcome([], None)
    else
      var s := RoundSpec(items, rem);
      if s.detection.Claimed? then
        var t := ClassifySpec(items, s.rest);
        Outcome([s.detection.fragment] + t.fragments, t.error)
      else Outcome([], Some(s.detection.error))
  }

  function FragmentTexts(fs: seq<Fragment>): (r: seq<string>)
    ensures |r| == |fs|
    ensures forall i :: 0 <= i < |fs| ==> r[i] == fs[i].text
  {
    if fs == [] then [] else [fs[0].text] + FragmentTexts(fs[1..])
  }

  /**
   * The fragments account for the first `k` lines, in order and without gap
   * or overlap, and what follows them is blank.
   */
  predicate Tiled(fs: seq<Fragment>, rem: seq<NumberedLine>, k: nat)
  {
    k <= |rem|
    && (fs == [] <==> k == 0)
    && Join(FragmentTexts(fs)) == Join(Texts(rem[..k]))
    && forall i :: k <= i < |rem| ==> IsBlank(rem[i].1)
  }

  /**
   * When `classify` runs to the end, its fragments tile the document: joined
   * with newlines they give back its lines up to the trailing blank ones.
   */
  lemma {:induction false} ClassifyTiles(items: seq<(string, Detector)>, rem: seq<NumberedLine>)
    requires NoneIsFallback(items)
    ensures ClassifySpec(items, rem).error.None? ==> exists k :: Tiled(ClassifySpec(items, rem).fragments, rem, k)
    decreases |rem|
  {
    if rem == [] {
      assert Tiled([], rem, 0);
    } else {
      var s := RoundSpec(items, rem);
      if s.detection.Claimed? {
        var t := ClassifySpec(items, s.rest);
        ClassifyTiles(items, s.rest);
        if t.error.None? {
          var k' :| Tiled(t.fragments, s.rest, k');
          var k := TileStep(rem, s, t.fragments, k');
          assert Tiled(ClassifySpec(items, rem).fragments, rem, k);
        }
      }
    }
  }

  /** One claim in front of a tiling of what it left is a tiling of the whole. */
  lemma TileStep(rem: seq<NumberedLine>, s: Step, fs: seq<Fragment>, k': nat) returns (k: nat)
    requires Covers(rem, s) && Tiled(fs, s.rest, k')
    ensures Tiled([s.detection.fragment] + fs, rem, k)
  {
    var c := s.claimed;
    var f := s.detection.fragment;
    var consumed := |rem| - |s.rest|;
    assert FragmentTexts([f] + fs) == [f.text] + FragmentTexts(fs);
    if fs == [] {
      k := c;
      assert Join([f.text]) == f.text;
      forall i | k <= i < |rem| ensures IsBlank(rem[i].1) {
        if i >= consumed {
          assert rem[i] == s.rest[i - consumed];
        }
      }
    } else {
      k := c + k';
      assert consumed == c;
      JoinAppend([f.text], FragmentTexts(fs));
      assert Join([f.text]) == f.text;
      assert rem[..c] + s.rest[..k'] == rem[..k];
      TextsAppend(rem[..c], s.rest[..k']);
      JoinAppend(Texts(rem[..c]), Texts(s.rest[..k']));
      forall i | k <= i < |rem| ensures IsBlank(rem[i].1) {
        assert rem[i] == s.rest[i - c];
      }
    }
  }

  /**
   * The fragments cover consecutive runs of lines, cut at `cuts`: fragment
   * `i` starts at the number of line `cuts[i]` and holds the lines up to
   * `cuts[i + 1]` joined with newlines; whatever follows the last run is blank.
   */
  predicate TiledBy(fs: seq<Fragment>, rem: seq<NumberedLine>, cuts: seq<nat>)
  {
    |cuts| == |fs| + 1 && cuts[0] == 0 && cuts[|fs|] <= |rem|
    && (forall i :: 0 <= i < |cuts| ==> cuts[i] <= cuts[|fs|])
    && (forall i {:trigger fs[i]} :: 0 <= i < |fs| ==> Run(fs[i], rem, cuts[i], cuts[i + 1]))
    && (forall i :: cuts[|fs|] <= i < |rem| ==> IsBlank(rem[i].1))
  }

  /** Fragment `f` holds the lines from `a` up to `b`, and its range starts at line `a`'s number. */
  predicate Run(f: Fragment, rem: seq<NumberedLine>, a: nat, b: nat)
  {
    a < b <= |rem| && f.range.0 == rem[a].0 && f.text == Join(Texts(rem[a..b]))
  }

  /**
   * When `classify` runs to the end, each fragment starts at the first line
   * it covers and the runs of lines follow one another.
   */
  lemma {:induction false} ClassifyRanges(items: seq<(string, Detector)>, rem: seq<NumberedLine>)
    requires NoneIsFallback(items)
    ensures ClassifySpec(items, rem).error.None? ==> exists cuts :: TiledBy(ClassifySpec(items, rem).fragments, rem, cuts)
    decreases |rem|
  {
    if rem == [] {
      assert TiledBy([], rem, [0]);
    } else {
      var s := RoundSpec(items, rem);
      if s.detection.Claimed? {
        var t := ClassifySpec(items, s.rest);
        ClassifyRanges(items, s.rest);
        if t.error.None? {
          var cuts' :| TiledBy(t.fragments, s.rest, cuts');
          var cuts := RangeStep(rem, s, t.fragments, cuts');
          assert TiledBy(ClassifySpec(items, rem).fragments, rem, cuts);
        }
      }
    }
  }

  /** One claim in front of the runs of what it left gives the runs of the whole. */
  lemma RangeStep(rem: seq<NumberedLine>, s: Step, fs: seq<Fragment>, cuts': seq<nat>) returns (cuts: seq<nat>)
    requires Covers(rem, s) && TiledBy(fs, s.rest, cuts')
    ensures TiledBy([s.detection.fragment] + fs, rem, cuts)
  {
    var c := s.claimed;
    var gs := [s.detection.fragment] + fs;
    cuts := ShiftedCuts(rem, s, fs, cuts');
    forall i {:trigger gs[i]} | 0 <= i < |gs| ensures Run(gs[i], rem, cuts[i], cuts[i + 1]) {
      if i == 0 {
        assert rem[cuts[0]..cuts[1]] == rem[..c];
      } else {
        ShiftedRun(rem, s, fs, cuts', i - 1);
      }
    }
    ShiftedBlank(rem, s, fs, cuts');
  }

  /** What follows the last run of what the claim left is blank in the whole as well. */
  lemma ShiftedBlank(rem: seq<NumberedLine>, s: Step, fs: seq<Fragment>, cuts': seq<nat>)
    requires Covers(rem, s) && TiledBy(fs, s.rest, cuts')
    ensures forall i :: s.claimed + cuts'[|fs|] <= i < |rem| ==> IsBlank(rem[i].1)
  {
    forall i | s.claimed + cuts'[|fs|] <= i < |rem| ensures IsBlank(rem[i].1) {
      if i >= |rem| - |s.rest| {
        assert rem[i] == s.rest[i - (|rem| - |s.rest|)];
      }
    }
  }

  /** The cuts of what the claim left, moved down by the claimed lines, behind a cut at the top. */
  lemma ShiftedCuts(rem: seq<NumberedLine>, s: Step, fs: seq<Fragment>, cuts': seq<nat>) returns (cuts: seq<nat>)
    requires Covers(rem, s) && TiledBy(fs, s.rest, cuts')
    ensures |cuts| == |fs| + 2 && cuts[0] == 0 && cuts[1] == s.claimed
    ensures forall i :: 1 <= i < |cuts| ==> cuts[i] == s.claimed + cuts'[i - 1]
    ensures forall i :: 0 <= i < |cuts| ==> cuts[i] <= cuts[|fs| + 1] <= |rem|
  {
    var c := s.claimed;
    cuts := [0] + seq(|cuts'|, j requires 0 <= j < |cuts'| => c + cuts'[j]);
    forall i | 1 <= i < |cuts| ensures cuts[i] == c + cuts'[i - 1] <= cuts[|fs| + 1] <= |rem| {
      assert cuts'[i - 1] <= cuts'[|fs|];
    }
  }

  /** A run of what the claim left is a run of the whole, moved down by the claimed lines. */
  lemma ShiftedRun(rem: seq<NumberedLine>, s: Step, fs: seq<Fragment>, cuts': seq<nat>, j: nat)
    requires Covers(rem, s) && TiledBy(fs, s.rest, cuts') && j < |fs|
    ensures Run(fs[j], rem, s.claimed + cuts'[j], s.claimed + cuts'[j + 1])
  {
    var c := s.claimed;
    assert Run(fs[j], s.rest, cuts'[j], cuts'[j + 1]);
    assert s.rest != [];
    assert rem[c + cuts'[j]..c + cuts'[j + 1]] == s.rest[cuts'[j]..cuts'[j + 1]];
  }

  /**
   * Offers the stream to the detector of `items[i]`, unless it is `none`:
   * a raise stops the pass, a claim is recorded.
   */
  method OfferNext(items: seq<(string, Detector)>, i: nat, lines: Peekable<NumberedLine>,
                   names: seq<string>, detected: seq<Fragment>, ghost steps: seq<Claimant>)
    returns (err: Option<Error>, names': seq<string>, detected': seq<Fragment>, ghost steps': seq<Claimant>)
    requires i < |items| && lines.Valid() && DeclineKeeps(DetectStep)
    requires names == Names(steps) && |detected| == |steps|
    requires forall j :: 0 <= j < |steps| ==> steps[j].step.detection == Claimed(detected[j])
    modifies lines
    ensures lines.Valid()
    ensures names' == Names(steps') && |detected'| == |steps'|
    ensures forall j :: 0 <= j < |steps'| ==> steps'[j].step.detection == Claimed(detected'[j])
    ensures err.None? ==>
      OfferFrom(DetectStep, items, i, old(lines.Remaining()), steps)
        == OfferFrom(DetectStep, items, i + 1, lines.Remaining(), steps')
    ensures err.Some? ==> steps' == steps
    ensures err.Some? ==>
      OfferFrom(DetectStep, items, i, old(lines.Remaining()), steps) == Offers(steps, lines.Remaining(), err)
  {
    names', detected', steps' := names, detected, steps;
    err := None;
    OfferFromUnfold(DetectStep, items, i, lines.Remaining(), steps);
    if items[i].0 != Plain.Name {
      ghost var before := lines.Remaining();
      var d := DetectWith(items[i].1, lines);
      if d.Failed? {
        return Some(d.error), names', detected', steps';
      }
      if d.Claimed? {
        ghost var c := Claimant(items[i].0, items[i].1, DetectStep(items[i].1, before));
        NamesAppend(steps, c);
        names' := names + [items[i].0];
        detected' := detected + [d.fragment];
        steps' := steps + [c];
      }
    }
  }

  /** The pass over the detectors: what they raised, who claimed and what. */
  method OfferAll(items: seq<(string, Detector)>, lines: Peekable<NumberedLine>)
    returns (err: Option<Error>, names: seq<string>, detected: seq<Fragment>, ghost steps: seq<Claimant>)
    requires lines.Valid()
    modifies lines
    ensures lines.Valid()
    ensures OfferFrom(DetectStep, items, 0, old(lines.Remaining()), []) == Offers(steps, lines.Remaining(), err)
    ensures names == Names(steps) && |detected| == |steps|
    ensures forall j :: 0 <= j < |steps| ==> steps[j].step.detection == Claimed(detected[j])
  {
    ghost var start := lines.Remaining();
    DetectStepKeeps();
    names, detected, steps := [], [], [];
    var i := 0;
    while i < |items|
      invariant 0 <= i <= |items| && lines.Valid()
      invariant DeclineKeeps(DetectStep)
      invariant OfferFrom(DetectStep, items, 0, start, []) == OfferFrom(DetectStep, items, i, lines.Remaining(), steps)
      invariant names == Names(steps) && |detected| == |steps|
      invariant forall j :: 0 <= j < |steps| ==> steps[j].step.detection == Claimed(detected[j])
    {
      err, names, detected, steps := OfferNext(items, i, lines, names, detected, steps);
      if err.Some? {
        return;
      }
      i := i + 1;
    }
    OfferEnd(DetectStep, items, lines.Remaining(), steps);
    err := None;
  }

  /** One pass of the loop in `classify`. */
  method Round(items: seq<(string, Detector)>, lines: Peekable<NumberedLine>) returns (r: Detection)
    requires lines.Valid() && lines.Remaining() != [] && NoneIsFallback(items)
    modifies lines
    ensures lines.Valid()
    ensures r == RoundSpec(items, old(lines.Remaining())).detection
    ensures lines.Remaining() == RoundSpec(items, old(lines.Remaining())).rest
  {
    var err, names, detected, steps := OfferAll(items, lines);
    if err.Some? {
      return Failed(err.value);
    }
    if detected == [] {
      var fallback := Lookup(items, Plain.Name);
      if fallback.None? {
        return Failed(KeyError(Plain.Name));
      }
      r := DetectWith(fallback.value, lines);
    } else if |detected| > 1 {
      var head := lines.Peek();
      ghost var rest := lines.Remaining();
      assert head.None? <==> rest == [];
      return Failed(Conflict(names, lines.Remaining()));
    } else {
      r := Claimed(detected[0]);
    }
  }

  /** `classify`: wraps the lines in a fresh stream and runs passes until it is exhausted or one raises. */
  method Classify(items: seq<(string, Detector)>, input: seq<NumberedLine>) returns (out: Outcome)
    requires NoneIsFallback(items)
    ensures out == ClassifySpec(items, input)
  {
    var lines := new Peekable(input);
    var fragments: seq<Fragment> := [];
    assert Accounts(items, input, [], input);
    while true
      invariant fresh(lines) && lines.Valid()
      invariant Accounts(items, input, fragments, lines.Remaining())
      decreases |lines.Remaining()|
    {
      var more := lines.NonEmpty();
      if !more {
        AccountsEnd(items, input, fragments);
        return Outcome(fragments, None);
      }
      ghost var before := lines.Remaining();
      var r := Round(items, lines);
      AccountsStep(items, input, fragments, before, r, lines.Remaining());
      if !r.Claimed? {
        return Outcome(fragments, Some(r.error));
      }
      fragments := fragments + [r.fragment];
    }
  }

  /**
   * The loop invariant of `Classify`: the fragments yielded so far, then
   * what `classify` yields on the lines left, are what it yields on the input.
   */
  ghost predicate Accounts(items: seq<(string, Detector)>, input: seq<NumberedLine>, fragments: seq<Fragment>,
                           rest: seq<NumberedLine>)
    requires NoneIsFallback(items)
  {
    var t := ClassifySpec(items, rest);
    ClassifySpec(items, input) == Outcome(fragments + t.fragments, t.error)
  }

  /** The loop of `Classify` ends with the stream. */
  lemma AccountsEnd(items: seq<(string, Detector)>, input: seq<NumberedLine>, fragments: seq<Fragment>)
    requires NoneIsFallback(items) && Accounts(items, input, fragments, [])
    ensures ClassifySpec(items, input) == Outcome(fragments, None)
  {
    assert fragments + [] == fragments;
  }

  /** One pass of `Classify`'s loop keeps its invariant, or ends it with the error the pass raised. */
  lemma AccountsStep(items: seq<(string, Detector)>, input: seq<NumberedLine>, fragments: seq<Fragment>,
                     before: seq<NumberedLine>, r: Detection, after: seq<NumberedLine>)
    requires NoneIsFallback(items) && before != [] && Accounts(items, input, fragments, before)
    requires r == RoundSpec(items, before).detection && after == RoundSpec(items, before).rest
    ensures r.Claimed? ==> Accounts(items, input, fragments + [r.fragment], after) && |after| < |before|
    ensures !r.Claimed? ==> r.Failed? && ClassifySpec(items, input) == Outcome(fragments, Some(r.error))
  {
    ClassifyUnfold(items, before);
    if r.Claimed? {
      var t := ClassifySpec(items, after);
      assert fragments + ([r.fragment] + t.fragments) == (fragments + [r.fragment]) + t.fragments;
    } else {
      assert fragments + [] == fragments;
    }
  }

  /** One pass of `ClassifySpec`, unfolded. */
  lemma ClassifyUnfold(items: seq<(string, Detector)>, rem: seq<NumberedLine>)
    requires NoneIsFallback(items) && rem != []
    ensures var s := RoundSpec(items, rem);
      if s.detection.Claimed? then
        var t := ClassifySpec(items, s.rest);
        ClassifySpec(items, rem) == Outcome([s.detection.fragment] + t.fragments, t.error)
      else ClassifySpec(items, rem) == Outcome([], Some(s.detection.error))
  {
  }

  /** `unclassify`: the texts of labelled lines, labels dropped, in order. */
  function Unclassify<L>(labelled: seq<(L, string)>): (r: seq<string>)
    ensures |r| == |labelled|
    ensures forall i :: 0 <= i < |labelled| ==> r[i] == labelled[i].1
  {
    Texts(labelled)
  }
}
