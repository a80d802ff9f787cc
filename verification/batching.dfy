/** Slicing a sequence into consecutive batches of a fixed size, as
    `range(0, len(df), batch_size)` with `df.iloc[start:start + batch_size]`
    does. */
module Batching {

  function Min(a: int, b: int): int {
    if a <= b then a else b
  }

  /** The batches laid end to end. */
  function Concat<T>(batches: seq<seq<T>>): seq<T>
    decreases |batches|
  {
    if batches == [] then [] else batches[0] + Concat(batches[1..])
  }

  /** Consecutive slices of `xs` of length `size`, the last one possibly
      shorter: together they are `xs`, none is empty, there are
      `ceil(|xs| / size)` of them, and all but the last are full. */
  function Batches<T>(xs: seq<T>, size: nat): (r: seq<seq<T>>)
    requires size > 0
    ensures Concat(r) == xs
    ensures |r| == (|xs| + size - 1) / size
    ensures forall b :: 0 <= b < |r| ==> 0 < |r[b]| <= size
    ensures forall b :: 0 <= b < |r| - 1 ==> |r[b]| == size
    decreases |xs|
  {
    if xs == [] then []
    else
      var n := Min(size, |xs|);
      var rest := Batches(xs[n..], size);
      var r := [xs[..n]] + rest;
      assert r[1..] == rest;
      assert xs == xs[..n] + xs[n..];
      CeilStep(|xs|, size);
      r
  }

  /** The first batch is the first `size` elements (or all of them), and
      the other batches are those of the rest. */
  lemma BatchesUnfold<T>(xs: seq<T>, size: nat)
    requires size > 0 && xs != []
    ensures var n := Min(size, |xs|);
            && Batches(xs, size)[0] == xs[..n]
            && Batches(xs, size)[1..] == Batches(xs[n..], size)
  {
    var n := Min(size, |xs|);
    assert Batches(xs, size) == [xs[..n]] + Batches(xs[n..], size);
  }

  /** Taking one full batch off a longer sequence takes one off the count;
      a sequence no longer than a batch makes one batch. */
  lemma CeilStep(n: nat, size: nat)
    requires size > 0 && n > 0
    ensures n <= size ==> (n + size - 1) / size == 1
    ensures n > size ==> (n + size - 1) / size == (n - size + size - 1) / size + 1
  {
    var a := n - size + size - 1;
    if n > size {
      assert n + size - 1 == a + size;
      DivAddOne(a, size);
    } else {
      DivIsOne(n + size - 1, size);
    }
  }

  lemma DivAddOne(a: nat, k: nat)
    requires k > 0
    ensures (a + k) / k == a / k + 1
  {
    var q := a / k;
    var r := a % k;
    assert a + k == (q + 1) * k + r;
    DivUnique(a + k, k, q + 1, r);
  }

  lemma DivIsOne(a: nat, k: nat)
    requires k > 0 && k <= a < 2 * k
    ensures a / k == 1
  {
    DivUnique(a, k, 1, a - k);
  }

  /** Quotient and remainder are determined by `a == q * k + r` with
      `0 <= r < k`. */
  lemma DivUnique(a: int, k: int, q: int, r: int)
    requires k > 0 && 0 <= r < k && a == q * k + r
    ensures a / k == q
  {
    var q0 := a / k;
    var r0 := a % k;
    assert (q - q0) * k == r0 - r;
    if q > q0 {
      MulAtLeast(q - q0, k);
    } else if q < q0 {
      MulAtLeast(q0 - q, k);
    }
  }

  lemma MulAtLeast(d: int, k: int)
    requires d >= 1 && k > 0
    ensures d * k >= k
  {
    assert d * k == (d - 1) * k + k;
  }
}
