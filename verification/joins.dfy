/** Joining one string piece per element of a sequence, read from the back
    (the shape of an accumulating loop) or from the front (the shape of a
    recursive definition), and where each piece lands in the result. */
module Joins {

  /** Joining one piece per element, appending at the back: the shape of a
      loop that does `acc += f(x)` for each `x` in order. */
  function JoinBack<T>(xs: seq<T>, f: T -> string): string
  {
    if |xs| == 0 then "" else JoinBack(xs[..|xs| - 1], f) + f(xs[|xs| - 1])
  }

  /** The same join read from the front: the first piece, then the rest. */
  function JoinFront<T>(xs: seq<T>, f: T -> string): string
  {
    if |xs| == 0 then "" else f(xs[0]) + JoinFront(xs[1..], f)
  }

  /** Joining a sequence split in two is joining each half in turn. */
  lemma {:induction false} JoinBackAppend<T>(a: seq<T>, b: seq<T>, f: T -> string)
    ensures JoinBack(a + b, f) == JoinBack(a, f) + JoinBack(b, f)
    decreases |b|
  {
    if |b| == 0 {
      assert a + b == a;
    } else {
      var b', x := b[..|b| - 1], b[|b| - 1];
      var ab := a + b;
      assert ab[..|ab| - 1] == a + b';
      assert ab[|ab| - 1] == x;
      JoinBackAppend(a, b', f);
    }
  }

  /** Both readings of the join agree. */
  lemma {:induction false} JoinBackIsJoinFront<T>(xs: seq<T>, f: T -> string)
    ensures JoinBack(xs, f) == JoinFront(xs, f)
    decreases |xs|
  {
    if |xs| > 0 {
      assert xs == [xs[0]] + xs[1..];
      JoinBackAppend([xs[0]], xs[1..], f);
      assert [xs[0]][..0] == [];
      JoinBackIsJoinFront(xs[1..], f);
    }
  }

  /** In a join followed by `tail`, element `i`'s piece sits right after
      the pieces of the elements before it. */
  lemma JoinBackPieceAt<T>(xs: seq<T>, i: nat, f: T -> string, tail: string)
    requires i < |xs|
    ensures var off := |JoinBack(xs[..i], f)|;
            off + |f(xs[i])| <= |JoinBack(xs, f) + tail|
            && (JoinBack(xs, f) + tail)[off..off + |f(xs[i])|] == f(xs[i])
  {
    var pre, x, rest := xs[..i], xs[i], xs[i + 1..];
    SplitAt(xs, i);
    JoinBackAppend(pre + [x], rest, f);
    JoinBackAppend(pre, [x], f);
    assert [x][..0] == [];
    PieceAt(JoinBack(pre, f), f(x), JoinBack(rest, f) + tail);
  }

  /** A sequence is its prefix, element `i` and its suffix. */
  lemma SplitAt<T>(xs: seq<T>, i: nat)
    requires i < |xs|
    ensures xs == xs[..i] + [xs[i]] + xs[i + 1..]
  {
  }

  /** The middle piece of a three-way concatenation sits right after the
      first. */
  lemma PieceAt(a: string, b: string, c: string)
    ensures (a + b + c)[|a|..|a| + |b|] == b
  {
  }
}
