/**
 * The line stream every detector works on: `more_itertools.peekable` over
 * the numbered lines of a document, with `peek`, `next`, `bool` and
 * `prepend`. It is kept as an explicit cursor: the materialised source, the
 * index of the next unread element and the stack of pushed-back elements.
 */
module Stream {
  import opened Common

  function Head<T>(s: seq<T>): (r: Option<T>)
    ensures r.None? <==> s == []
    ensures r.Some? ==> r.value == s[0]
  {
    if s == [] then None else Some(s[0])
  }

  function Tail<T>(s: seq<T>): seq<T>
  {
    if s == [] then [] else s[1..]
  }

  class Peekable<T> {
    var source: seq<T>
    var index: nat
    var pushed: seq<T>  // pushed[0] is the element `next` returns first

    ghost predicate Valid()
      reads this
    {
      index <= |source|
    }

    /** What is left to read, pushed-back elements first. */
    function Remaining(): seq<T>
      reads this
      requires Valid()
    {
      pushed + source[index..]
    }

    constructor (s: seq<T>)
      ensures Valid() && Remaining() == s
    {
      source := s;
      index := 0;
      pushed := [];
    }

    /** `bool(lines)`: something is left to read. */
    method NonEmpty() returns (b: bool)
      requires Valid()
      ensures b <==> Remaining() != []
    {
      b := pushed != [] || index < |source|;
    }

    /** `lines.peek()`, with `None` for the `StopIteration` it raises at the end. */
    method Peek() returns (r: Option<T>)
      requires Valid()
      ensures r == Head(Remaining())
    {
      if pushed != [] {
        r := Some(pushed[0]);
      } else if index < |source| {
        r := Some(source[index]);
      } else {
        r := None;
      }
    }

    /** `next(lines)`, with `None` for `StopIteration`; consumes one element. */
    method Next() returns (r: Option<T>)
      requires Valid()
      modifies this
      ensures Valid()
      ensures r == Head(old(Remaining()))
      ensures Remaining() == Tail(old(Remaining()))
    {
      if pushed != [] {
        r := Some(pushed[0]);
        pushed := pushed[1..];
      } else if index < |source| {
        r := Some(source[index]);
        index := index + 1;
        assert source[index - 1..] == [source[index - 1]] + source[index..];
      } else {
        r := None;
      }
    }

    /** `lines.prepend(*items)`: the items are read again, in their order, before the rest. */
    method Prepend(items: seq<T>)
      requires Valid()
      modifies this
      ensures Valid()
      ensures Remaining() == items + old(Remaining())
    {
      pushed := items + pushed;
    }
  }

  /** The length of the longest prefix of `s` whose elements all satisfy `p`. */
  function Run<T>(s: seq<T>, p: T -> bool): (k: nat)
    ensures k <= |s|
    ensures forall i :: 0 <= i < k ==> p(s[i])
    ensures k == |s| || !p(s[k])
  {
    if s == [] || !p(s[0]) then 0 else 1 + Run(s[1..], p)
  }

  /** The two properties in `Run`'s contract pin its value down. */
  lemma RunUnique<T>(s: seq<T>, p: T -> bool, k: nat)
    requires k <= |s|
    requires forall i :: 0 <= i < k ==> p(s[i])
    requires k == |s| || !p(s[k])
    ensures k == Run(s, p)
  {
  }

  /** The run after the first element, indexed in the whole sequence. */
  lemma RunAfterFirst<T>(s: seq<T>, p: T -> bool)
    requires s != []
    ensures var k := 1 + Run(s[1..], p);
      (forall i :: 1 <= i < k ==> p(s[i])) && (k == |s| || !p(s[k]))
  {
    var k := 1 + Run(s[1..], p);
    assert forall i :: 1 <= i < k ==> s[i] == s[1..][i - 1];
    assert k < |s| ==> s[k] == s[1..][k - 1];
  }

  /** Slices of a tail, as slices of the whole sequence. */
  lemma TailSlices<T>(s: seq<T>, k: nat)
    requires 1 <= k <= |s|
    ensures s[1..][..k - 1] == s[1..k] && s[1..][k - 1..] == s[k..]
  {
  }

  /** Moving the first `k` elements of `t` onto the end of `s`. */
  lemma AppendSplit<T>(s: seq<T>, t: seq<T>, k: nat)
    requires k <= |t|
    ensures (s + t[..k]) + t[k..] == s + t && |s + t[..k]| == |s| + k
  {
    assert t == t[..k] + t[k..];
  }

  /** Dropping twice is dropping once. */
  lemma DropDrop<T>(s: seq<T>, n: nat, m: nat)
    requires n + m <= |s|
    ensures s[n..][m..] == s[n + m..]
  {
  }

  /** The first element followed by a prefix of the tail is a prefix. */
  lemma ConsTake<T>(s: seq<T>, k: nat)
    requires k < |s|
    ensures [s[0]] + s[1..][..k] == s[..k + 1]
  {
  }

  /** The first element and a prefix of the tail; the rest of the tail. */
  lemma ConsSplit<T>(s: seq<T>, k: nat)
    requires 1 <= k <= |s|
    ensures [s[0]] + s[1..][..k - 1] == s[..k] && s[1..][k - 1..] == s[k..]
  {
    assert s[..k] == [s[0]] + s[1..k];
  }

  lemma TakeThenDrop<T>(s: seq<T>, k: nat)
    requires k <= |s|
    ensures s[..k] + s[k..] == s
  {
  }

  /** A prefix and the next `b + 1` elements make a longer prefix. */
  lemma PrefixStep<T>(s: seq<T>, n: nat, b: nat)
    requires n + b < |s|
    ensures s[..n] + s[n..][..b + 1] == s[..n + b + 1]
  {
  }

  /** The first element, the elements up to `k` and the element at `k` make up `s[..k + 1]`. */
  lemma Reassemble<T>(s: seq<T>, k: nat)
    requires 1 <= k < |s|
    ensures [s[0]] + s[1..k] + [s[k]] == s[..k + 1] && s[k..][1..] == s[k + 1..]
  {
  }

  /**
   * Peeks at the next element, with `default` standing for the end of the
   * stream, and consumes it while the predicate holds; the first element
   * that fails it is only peeked at, so it stays in the stream.
   */
  method PeekWhile<T>(lines: Peekable<T>, p: T -> bool, default: T) returns (taken: seq<T>)
    requires lines.Valid() && !p(default)
    modifies lines
    ensures lines.Valid()
    ensures taken == old(lines.Remaining())[..Run(old(lines.Remaining()), p)]
    ensures lines.Remaining() == old(lines.Remaining())[Run(old(lines.Remaining()), p)..]
  {
    ghost var start := lines.Remaining();
    taken := [];
    while true
      invariant lines.Valid()
      invariant |taken| <= |start|
      invariant taken == start[..|taken|]
      invariant lines.Remaining() == start[|taken|..]
      invariant forall i :: 0 <= i < |taken| ==> p(taken[i])
      decreases |start| - |taken|
    {
      var head := lines.Peek();
      var current := if head.None? then default else head.value;
      if !p(current) {
        break;
      }
      var _ := lines.Next();
      taken := taken + [current];
    }
    RunUnique(start, p, |taken|);
  }

  /**
   * `take_while(iterable, predicate)`: takes elements with `next` while the
   * predicate holds; the first element that fails it is put back with
   * `prepend`, so nothing is lost.
   */
  method TakeWhile<T>(lines: Peekable<T>, p: T -> bool) returns (taken: seq<T>)
    requires lines.Valid()
    modifies lines
    ensures lines.Valid()
    ensures taken == old(lines.Remaining())[..Run(old(lines.Remaining()), p)]
    ensures lines.Remaining() == old(lines.Remaining())[Run(old(lines.Remaining()), p)..]
  {
    ghost var start := lines.Remaining();
    taken := [];
    while true
      invariant lines.Valid()
      invariant |taken| <= |start|
      invariant taken == start[..|taken|]
      invariant lines.Remaining() == start[|taken|..]
      invariant forall i :: 0 <= i < |taken| ==> p(taken[i])
      decreases |start| - |taken|
    {
      var next := lines.Next();
      if next.None? {
        break;
      }
      if !p(next.value) {
        lines.Prepend([next.value]);
        break;
      }
      taken := taken + [next.value];
    }
    RunUnique(start, p, |taken|);
  }
}
