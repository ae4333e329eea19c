/** Sequence utilities: flattening nested lists and summing reals. */
module Seqs {

  /** The lists of `xss` one after another (Python's nested `for`/`append`). */
  function Flatten<T>(xss: seq<seq<T>>): seq<T>
    decreases |xss|
  {
    if |xss| == 0 then [] else Flatten(xss[..|xss| - 1]) + xss[|xss| - 1]
  }

  /** Flattening a concatenation flattens each half. */
  lemma {:induction false} FlattenAppend<T>(a: seq<seq<T>>, b: seq<seq<T>>)
    ensures Flatten(a + b) == Flatten(a) + Flatten(b)
    decreases |b|
  {
    if |b| > 0 {
      var b' := b[..|b| - 1];
      assert (a + b)[..|a + b| - 1] == a + b';
      FlattenAppend(a, b');
      calc {
        Flatten(a + b);
        Flatten(a + b') + b[|b| - 1];
        Flatten(a) + Flatten(b') + b[|b| - 1];
        Flatten(a) + Flatten(b);
      }
    } else {
      assert a + b == a;
    }
  }

  /** The length of a flattening is the sum of the lengths. */
  function TotalLength<T>(xss: seq<seq<T>>): nat
    decreases |xss|
  {
    if |xss| == 0 then 0 else TotalLength(xss[..|xss| - 1]) + |xss[|xss| - 1]|
  }

  lemma {:induction false} FlattenLength<T>(xss: seq<seq<T>>)
    ensures |Flatten(xss)| == TotalLength(xss)
    decreases |xss|
  {
    if |xss| > 0 {
      FlattenLength(xss[..|xss| - 1]);
    }
  }

  /** Lists of lists with the same lengths, element by element, have the same total length. */
  lemma {:induction false} TotalLengthAgrees<A, B>(a: seq<seq<A>>, b: seq<seq<B>>)
    requires |a| == |b|
    requires forall i :: 0 <= i < |a| ==> |a[i]| == |b[i]|
    ensures TotalLength(a) == TotalLength(b)
    decreases |a|
  {
    if |a| > 0 {
      TotalLengthAgrees(a[..|a| - 1], b[..|b| - 1]);
    }
  }

  /** `sum(xs)` over reals, left to right. */
  function Sum(xs: seq<real>): real
    decreases |xs|
  {
    if |xs| == 0 then 0.0 else Sum(xs[..|xs| - 1]) + xs[|xs| - 1]
  }

  /** A sum of values in `[lo, hi]` lies between `|xs| * lo` and `|xs| * hi`. */
  lemma {:induction false} SumBounds(xs: seq<real>, lo: real, hi: real)
    requires forall i :: 0 <= i < |xs| ==> lo <= xs[i] <= hi
    ensures |xs| as real * lo <= Sum(xs) <= |xs| as real * hi
    decreases |xs|
  {
    if |xs| > 0 {
      var n := (|xs| - 1) as real;
      SumBounds(xs[..|xs| - 1], lo, hi);
      assert |xs| as real * lo == n * lo + lo;
      assert |xs| as real * hi == n * hi + hi;
    }
  }

  /** Scaling by a non-negative factor keeps order. */
  lemma ScaleMonotone(k: real, a: real, b: real)
    requires k >= 0.0 && a <= b
    ensures k * a <= k * b
  {
    assert k * b - k * a == k * (b - a);
  }

  /** Scaling by a positive factor keeps strict order. */
  lemma ScaleStrict(k: real, a: real, b: real)
    requires k > 0.0 && a < b
    ensures k * a < k * b
  {
    assert k * b - k * a == k * (b - a);
  }

  /** Dividing by a positive number keeps an upper bound scaled by it. */
  lemma QuotientAtMost(a: real, b: real, t: real)
    requires t > 0.0 && a <= b * t
    ensures a / t <= b
  {
    var q := a / t;
    assert q * t == a;
    if q > b {
      ScaleStrict(t, b, q);
      assert false;
    }
  }

  /** Dividing by a positive number keeps a lower bound scaled by it. */
  lemma QuotientAtLeast(a: real, b: real, t: real)
    requires t > 0.0 && b * t <= a
    ensures b <= a / t
  {
    var q := a / t;
    assert q * t == a;
    if q < b {
      ScaleStrict(t, q, b);
      assert false;
    }
  }
}
