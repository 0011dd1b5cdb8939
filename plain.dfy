/**
 * The fallback `none` notation: every line no other detector claims becomes
 * a fragment of its own, `((n, n + 1), "none", text)`, and its code passes
 * through extraction and reformatting unchanged. Its module is not part of
 * this model; the behaviour follows its tests and the dispatcher's use of it.
 */
module Plain {
  import opened Common
  import opened Text
  import opened Stream
  import opened Protocol

  const Name: string := "none"

  /**
   * Detection claims the current line and nothing else; on an exhausted
   * stream there is nothing to claim.
   */
  function DetectSpec(rem: seq<NumberedLine>): (s: Step)
    ensures Sound(rem, s, Name, 0)
    ensures s.detection.Declined? <==> rem == []
    ensures rem != [] ==> s.claimed == 1 && s.rest == rem[1..]
  {
    if rem == [] then Step(Declined, 0, rem)
    else
      assert Texts(rem[..1]) == [rem[0].1];
      Step(Claimed(Fragment((rem[0].0, rem[0].0 + 1), Name, rem[0].1)), 1, rem[1..])
  }

  /** The detection function: consumes the current line and returns it as a fragment. */
  method Detect(lines: Peekable<NumberedLine>) returns (r: Detection)
    requires lines.Valid()
    modifies lines
    ensures lines.Valid()
    ensures r == DetectSpec(old(lines.Remaining())).detection
    ensures lines.Remaining() == DetectSpec(old(lines.Remaining())).rest
  {
    var head := lines.Next();
    if head.None? {
      return Declined;
    }
    var (n, text) := head.value;
    r := Claimed(Fragment((n, n + 1), Name, text));
  }
}
