/**
 * Shared vocabulary of the pipeline: optional values, results carrying the
 * exceptions the Python code raises, numbered document lines and the
 * fragments that detectors claim.
 */
module Common {

  datatype Option<+T> = None | Some(value: T)

  /** The exceptions raised along the pipeline, by Python class name. */
  datatype Error =
    | InvalidFormatError(message: string)   // blackdoc.formats.errors.InvalidFormatError
    | RuntimeError(message: string)
    | ValueError(message: string)
    | TypeError(message: string)
    | AttributeError(message: string)
    | KeyError(key: string)
    | IndexError(message: string)
    | InvalidInput(message: string)         // black.InvalidInput

  datatype Result<+T> = Ok(value: T) | Err(error: Error)

  /** A document line with its 1-based number, as produced by `enumerate(lines, start=1)`. */
  type NumberedLine = (int, string)

  /** The tuple `(line_range, name, text)` a detector returns when it claims lines. */
  datatype Fragment = Fragment(range: (int, int), notation: string, text: string)

  /**
   * The three outcomes of a detection function: it returns `None`, returns a
   * fragment, or raises.
   */
  datatype Detection = Declined | Claimed(fragment: Fragment) | Failed(error: Error)

  /** The texts of numbered lines or labelled items, in order. */
  function Texts<L>(lines: seq<(L, string)>): (r: seq<string>)
    ensures |r| == |lines|
    ensures forall i :: 0 <= i < |lines| ==> r[i] == lines[i].1
  {
    if lines == [] then [] else [lines[0].1] + Texts(lines[1..])
  }

  /** Line numbers `first, first + 1, ...` without a gap, as the detectors' contiguity checks demand. */
  predicate Contiguous(lines: seq<NumberedLine>)
  {
    forall i :: 0 <= i < |lines| ==> lines[i].0 == lines[0].0 + i
  }

  lemma TextsAppend<L>(a: seq<(L, string)>, b: seq<(L, string)>)
    ensures Texts(a + b) == Texts(a) + Texts(b)
  {
    var l, r := Texts(a + b), Texts(a) + Texts(b);
    forall i | 0 <= i < |l| ensures l[i] == r[i] {
      if i < |a| {
        assert (a + b)[i] == a[i];
      } else {
        assert (a + b)[i] == b[i - |a|];
      }
    }
  }
}
