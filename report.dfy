/**
 * The summary printed after a run: how many files were (or would be)
 * reformatted, left unchanged or failed, each count with a rich-markup
 * style, and the tally of per-file results that feeds it.
 */
module Report {
  import opened Common
  import opened Text

  /** "file" or "files": singular exactly for a count of one, among the counts that get reported. */
  function Noun(n: int): (w: string)
    ensures n > 0 ==> (w == "file" <==> n == 1)
    ensures n >= 2 ==> w == "files"
  {
    if n < 2 then "file" else "files"
  }

  /** The three phrases of a summary: what happened, or what would happen. */
  datatype Wording = Wording(reformatted: string, kept: string, failed: string)

  const Done: Wording := Wording("reformatted", "left unchanged", "fails to reformat")
  const Possible: Wording := Wording("would be reformatted", "would be left unchanged", "would fail to reformat")

  /** One styled entry, such as `[white]4 files left unchanged[/]`. */
  function Entry(style: string, n: int, phrase: string): (e: string)
    ensures StartsWith(e, "[" + style + "]") && EndsWith(e, "[/]")
  {
    "[" + style + "]" + IntToString(n) + " " + Noun(n) + " " + phrase + "[/]"
  }

  /** The entries of the summary: one for each positive count, in the order reformatted, unchanged, failed. */
  function Entries(nReformatted: int, nUnchanged: int, nError: int, w: Wording): (es: seq<string>)
    ensures |es| == (if nReformatted > 0 then 1 else 0) + (if nUnchanged > 0 then 1 else 0)
                    + (if nError > 0 then 1 else 0)
    ensures forall i :: 0 <= i < |es| ==> StartsWith(es[i], "[") && EndsWith(es[i], "[/]")
    ensures nReformatted > 0 ==> es[0] == Entry("bold white", nReformatted, w.reformatted)
    ensures nUnchanged > 0 ==> es[if nReformatted > 0 then 1 else 0] == Entry("white", nUnchanged, w.kept)
    ensures nError > 0 ==> es[|es| - 1] == Entry("red", nError, w.failed)
  {
    var first := if nReformatted > 0 then [Entry("bold white", nReformatted, w.reformatted)] else [];
    var middle := if nUnchanged > 0 then [Entry("white", nUnchanged, w.kept)] else [];
    var last := if nError > 0 then [Entry("red", nError, w.failed)] else [];
    first + middle + last
  }

  /** The entries joined by commas, with a closing full stop. */
  function Summary(entries: seq<string>): string
  {
    JoinWith(", ", entries) + "."
  }

  /** A joined list starts with its first item. */
  lemma {:induction false} JoinWithStarts(sep: string, items: seq<string>)
    requires items != []
    ensures StartsWith(JoinWith(sep, items), items[0])
  {
    if |items| > 1 {
      assert JoinWith(sep, items) == items[0] + (sep + JoinWith(sep, items[1..]));
    }
  }

  /** A joined list ends with its last item. */
  lemma {:induction false} JoinWithEnds(sep: string, items: seq<string>)
    requires items != []
    ensures EndsWith(JoinWith(sep, items), items[|items| - 1])
  {
    if |items| > 1 {
      JoinWithEnds(sep, items[1..]);
      assert JoinWith(sep, items) == (items[0] + sep) + JoinWith(sep, items[1..]);
    }
  }

  /**
   * The summary is a bare full stop exactly when no count is positive; it
   * opens with the reformatted entry when there is one and ends with the
   * failure entry and the full stop when there is one.
   */
  lemma SummaryShape(nReformatted: int, nUnchanged: int, nError: int, w: Wording)
    ensures var s := Summary(Entries(nReformatted, nUnchanged, nError, w));
      s == "." <==> nReformatted <= 0 && nUnchanged <= 0 && nError <= 0
    ensures nReformatted > 0 ==>
      StartsWith(Summary(Entries(nReformatted, nUnchanged, nError, w)), Entry("bold white", nReformatted, w.reformatted))
    ensures nError > 0 ==>
      EndsWith(Summary(Entries(nReformatted, nUnchanged, nError, w)), Entry("red", nError, w.failed) + ".")
  {
    var es := Entries(nReformatted, nUnchanged, nError, w);
    if es != [] {
      JoinWithStarts(", ", es);
      JoinWithEnds(", ", es);
      assert |JoinWith(", ", es)| >= |es[0]| >= 3;
    }
  }

  /** The summary built step by step, as both report functions do. */
  method ReportWith(nReformatted: int, nUnchanged: int, nError: int, w: Wording) returns (s: string)
    ensures s == Summary(Entries(nReformatted, nUnchanged, nError, w))
  {
    var reports: seq<string> := [];
    if nReformatted > 0 {
      reports := reports + [Entry("bold white", nReformatted, w.reformatted)];
    }
    if nUnchanged > 0 {
      reports := reports + [Entry("white", nUnchanged, w.kept)];
    }
    if nError > 0 {
      reports := reports + [Entry("red", nError, w.failed)];
    }
    assert reports == Entries(nReformatted, nUnchanged, nError, w);
    s := JoinWith(", ", reports) + ".";
  }

  /** `report_changes`: the summary of a run that rewrote files. */
  method ReportChanges(nReformatted: int, nUnchanged: int, nError: int) returns (s: string)
    ensures s == Summary(Entries(nReformatted, nUnchanged, nError, Done))
  {
    s := ReportWith(nReformatted, nUnchanged, nError, Done);
  }

  /** `report_possible_changes`: the summary of a check-only run. */
  method ReportPossibleChanges(nReformatted: int, nUnchanged: int, nError: int) returns (s: string)
    ensures s == Summary(Entries(nReformatted, nUnchanged, nError, Possible))
  {
    s := ReportWith(nReformatted, nUnchanged, nError, Possible);
  }

  // ------------------------------------------------------------- statistics

  /** The per-file results the tally knows. */
  predicate Known(result: string)
  {
    result == "unchanged" || result == "reformatted" || result == "error"
  }

  /** How often `v` occurs among the results. */
  function Count(results: seq<string>, v: string): (n: nat)
    ensures n <= |results|
  {
    if results == [] then 0
    else Count(results[..|results| - 1], v) + (if results[|results| - 1] == v then 1 else 0)
  }

  /** The results the tally does not know, once each, in order of first occurrence. */
  function Unknowns(results: seq<string>): (u: seq<string>)
    ensures forall x :: x in u <==> x in results && !Known(x)
    ensures forall i, j :: 0 <= i < j < |u| ==> u[i] != u[j]
  {
    if results == [] then []
    else
      var u := Unknowns(results[..|results| - 1]);
      var x := results[|results| - 1];
      if Known(x) || x in u then u else u + [x]
  }

  /** How a `dict_keys` view of strings prints (quotes inside the strings are not escaped). */
  function DictKeys(keys: seq<string>): string
  {
    "dict_keys([" + JoinWith(", ", seq(|keys|, i requires 0 <= i < |keys| => "'" + keys[i] + "'")) + "])"
  }

  /** Every known result is one of the three, so the three counts add up to the number of results. */
  lemma {:induction false} CountsCover(results: seq<string>)
    requires forall i :: 0 <= i < |results| ==> Known(results[i])
    ensures Count(results, "reformatted") + Count(results, "unchanged") + Count(results, "error") == |results|
  {
    if results != [] {
      CountsCover(results[..|results| - 1]);
    }
  }

  /**
   * `statistics`: the numbers of reformatted, unchanged and failed files,
   * which together account for every file; any other result raises
   * `RuntimeError` naming the unknown results.
   */
  function Statistics(results: seq<string>): (r: Result<(nat, nat, nat)>)
    ensures r.Ok? <==> forall i :: 0 <= i < |results| ==> Known(results[i])
    ensures r.Ok? ==> r.value.0 + r.value.1 + r.value.2 == |results|
    ensures r.Ok? ==> r.value.0 == Count(results, "reformatted") && r.value.1 == Count(results, "unchanged")
                      && r.value.2 == Count(results, "error")
    ensures r.Err? ==> Unknowns(results) != [] && r.error == RuntimeError("unknown results: " + DictKeys(Unknowns(results)))
  {
    var unknown := Unknowns(results);
    if unknown != [] then
      assert unknown[0] in results;
      Err(RuntimeError("unknown results: " + DictKeys(unknown)))
    else
      CountsCover(results);
      Ok((Count(results, "reformatted"), Count(results, "unchanged"), Count(results, "error")))
  }

  /** One more file with a known result adds one to its own count and leaves the others alone. */
  lemma StatisticsAppend(results: seq<string>, v: string)
    requires Statistics(results).Ok? && Known(v)
    ensures var (r, u, e) := Statistics(results).value;
      Statistics(results + [v]) == Ok((r + (if v == "reformatted" then 1 else 0),
                                       u + (if v == "unchanged" then 1 else 0),
                                       e + (if v == "error" then 1 else 0)))
  {
    assert (results + [v])[..|results|] == results;
  }
}
