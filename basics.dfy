/** Small shared vocabulary: an optional value and a counting argument. */
module Basics {

  datatype Option<+T> = None | Some(value: T)

  /** The last `k` elements of `s` (all of `s` when it is shorter), as Python's `s[-k:]`. */
  function Last<T>(s: seq<T>, k: nat): (r: seq<T>)
    requires k > 0
    ensures |r| == if |s| < k then |s| else k
    ensures s == s[..|s| - |r|] + r
  {
    if |s| <= k then s else s[|s| - k..]
  }

  /** The image of the integer range [a, b) under `f`. */
  ghost function Image(f: nat -> string, a: nat, b: nat): set<string>
    requires a <= b
  {
    set j: nat | a <= j < b :: f(j)
  }

  lemma {:induction false} ImageSize(f: nat -> string, a: nat, b: nat)
    requires a <= b
    requires forall i: nat, j: nat :: a <= i < j < b ==> f(i) != f(j)
    ensures |Image(f, a, b)| == b - a
    decreases b - a
  {
    if a < b {
      ImageSize(f, a, b - 1);
      assert Image(f, a, b) == Image(f, a, b - 1) + {f(b - 1)};
      assert f(b - 1) !in Image(f, a, b - 1);
    } else {
      assert Image(f, a, b) == {};
    }
  }

  /**
   * Pigeonhole: an injective map from the range [a, b) into a finite set `s`
   * needs at least b - a elements in `s`.  Every `while` loop of the model that
   * looks for a free numbered key terminates by this argument.
   */
  lemma Pigeonhole(f: nat -> string, a: nat, b: nat, s: set<string>)
    requires a <= b
    requires forall j: nat :: a <= j < b ==> f(j) in s
    requires forall i: nat, j: nat :: a <= i < j < b ==> f(i) != f(j)
    ensures b - a <= |s|
  {
    ImageSize(f, a, b);
    assert Image(f, a, b) <= s;
    SubsetSize(Image(f, a, b), s);
  }

  lemma SubsetSize<T>(a: set<T>, b: set<T>)
    requires a <= b
    ensures |a| <= |b|
  {
    assert b == a + (b - a);
  }

  /** A sequence has at least as many positions as it has distinct elements. */
  lemma {:induction false} SeqSetSize<T>(xs: seq<T>)
    ensures |set x | x in xs| <= |xs|
  {
    if xs != [] {
      SeqSetSize(xs[1..]);
      assert (set x | x in xs) == (set x | x in xs[1..]) + {xs[0]};
    }
  }
}
