/**
 * The line-classifier protocol shared by the detectors: a detector looks at
 * what is left of the stream and either declines, leaving it untouched, or
 * claims a contiguous run of lines, leaving the stream just after it, or
 * raises.
 */
module Protocol {
  import opened Common
  import opened Text
  import opened Stream

  /**
   * What one detection call does to the stream, as a specification: its
   * outcome, how many lines its fragment holds, and what is left to read.
   */
  datatype Step = Step(detection: Detection, claimed: nat, rest: seq<NumberedLine>)

  /**
   * The fragment built from claimed lines once the contiguity check passes:
   * `(min, max + 1 + extra)`, the name and the lines joined with newlines.
   * (Under the check, min and max are the first and last line numbers.)
   */
  function Claim(lines: seq<NumberedLine>, name: string, extra: int, err: Error): (d: Detection)
    requires lines != []
    ensures d.Claimed? <==> Contiguous(lines)
    ensures d.Claimed? ==> d.fragment.notation == name
  {
    if Contiguous(lines) then
      Claimed(Fragment((lines[0].0, lines[|lines| - 1].0 + 1 + extra), name, Join(Texts(lines))))
    else
      Failed(err)
  }

  /** The lines a step took off the stream. */
  function Consumed(rem: seq<NumberedLine>, s: Step): seq<NumberedLine>
    requires |s.rest| <= |rem|
  {
    rem[..|rem| - |s.rest|]
  }

  /**
   * The protocol a detector keeps: what is left is a suffix of what was
   * there; declining consumes nothing; a claim consumes at least one line,
   * its fragment is exactly its first `claimed` lines joined, its range starts
   * at the first of them and ends `extra` past the last, and any further
   * consumed line is blank and only consumed at the end of the stream.
   */
  ghost predicate Sound(rem: seq<NumberedLine>, s: Step, name: string, extra: int)
  {
    |s.rest| <= |rem| && s.rest == rem[|rem| - |s.rest|..]
    && (s.detection.Declined? ==> s.rest == rem)
    && (s.detection.Claimed? ==>
          1 <= s.claimed <= |rem| - |s.rest|
          && (forall i :: s.claimed <= i < |rem| - |s.rest| ==> IsBlank(rem[i].1))
          && (s.claimed < |rem| - |s.rest| ==> s.rest == [])
          && Contiguous(rem[..s.claimed])
          && s.detection.fragment ==
               Fragment((rem[0].0, rem[s.claimed - 1].0 + 1 + extra), name, Join(Texts(rem[..s.claimed]))))
  }

  /** A raise that uses up the stream keeps the protocol. */
  lemma FailedSound(rem: seq<NumberedLine>, err: Error, name: string, extra: int)
    ensures Sound(rem, Step(Failed(err), 0, []), name, extra)
  {
    assert rem[|rem|..] == [];
  }

  /** A claim of the first `k` lines, leaving the rest, keeps the protocol. */
  lemma ClaimSound(rem: seq<NumberedLine>, k: nat, name: string, extra: int, err: Error)
    requires 1 <= k <= |rem|
    ensures Sound(rem, Step(Claim(rem[..k], name, extra, err), k, rem[k..]), name, extra)
  {
    assert rem[..k][0] == rem[0] && rem[..k][k - 1] == rem[k - 1];
  }

  /**
   * A claim of a first line and the run of lines after it that satisfy `p`:
   * the claim keeps the protocol, every line of the run satisfies `p` and
   * the first line left does not.
   */
  lemma RunClaim(rem: seq<NumberedLine>, p: NumberedLine -> bool, name: string, extra: int, err: Error)
    requires rem != []
    ensures var k := 1 + Run(rem[1..], p);
      k <= |rem|
      && Sound(rem, Step(Claim(rem[..k], name, extra, err), k, rem[k..]), name, extra)
      && (forall i :: 1 <= i < k ==> p(rem[i]))
      && (rem[k..] == [] || !p(rem[k..][0]))
  {
    var k := 1 + Run(rem[1..], p);
    RunAfterFirst(rem, p);
    ClaimSound(rem, k, name, extra, err);
  }

  /**
   * A claim of the first `k` lines that went on to consume the blank lines
   * after them, which is only allowed when they run to the end of the stream.
   */
  lemma ClaimSoundBlank(rem: seq<NumberedLine>, k: nat, c: nat, name: string, extra: int, err: Error)
    requires 1 <= k <= c <= |rem|
    requires forall i :: k <= i < c ==> IsBlank(rem[i].1)
    requires k < c ==> c == |rem|
    ensures Sound(rem, Step(Claim(rem[..k], name, extra, err), k, rem[c..]), name, extra)
  {
    assert rem[..k][0] == rem[0] && rem[..k][k - 1] == rem[k - 1];
  }
  /**
   * What a claim says about the lines it consumed, whatever its notation:
   * the part of `Sound` that concerns the lines, and the start of the range.
   */
  ghost predicate Covers(rem: seq<NumberedLine>, s: Step)
  {
    s.detection.Claimed?
    && |s.rest| <= |rem| && s.rest == rem[|rem| - |s.rest|..]
    && 1 <= s.claimed <= |rem| - |s.rest|
    && (forall i :: s.claimed <= i < |rem| - |s.rest| ==> IsBlank(rem[i].1))
    && (s.claimed < |rem| - |s.rest| ==> s.rest == [])
    && s.detection.fragment.range.0 == rem[0].0
    && s.detection.fragment.text == Join(Texts(rem[..s.claimed]))
  }

  lemma SoundCovers(rem: seq<NumberedLine>, s: Step, name: string, extra: int)
    requires Sound(rem, s, name, extra) && s.detection.Claimed?
    ensures Covers(rem, s)
  {
    assert rem[..s.claimed][0] == rem[0];
  }
}
