/** Splitting a list into consecutive slices of a fixed size, the loop
    `for (i = 0; i < xs.length; i += size) chunks.push(xs.slice(i, i + size))`
    that the program writes for user chunks of 25, send batches of five and
    pool batches of five. */
module Batching {

  import opened Common

  /** The loop itself: a full slice off the front, then the rest. */
  function Slices<T>(xs: seq<T>, size: nat): seq<seq<T>>
    requires size > 0
    decreases |xs|
  {
    if |xs| == 0 then []
    else if |xs| <= size then [xs]
    else [xs[..size]] + Slices(xs[size..], size)
  }

  /** Consecutive slices of at most `size` elements. Nothing is lost or
      reordered, no slice is empty, and every slice but the last is full. */
  function Chunks<T>(xs: seq<T>, size: nat): (cs: seq<seq<T>>)
    requires size > 0
    ensures Concat(cs) == xs
    ensures forall i | 0 <= i < |cs| :: 0 < |cs[i]| <= size
    ensures forall i | 0 <= i < |cs| - 1 :: |cs[i]| == size
    ensures |xs| == 0 <==> |cs| == 0
  {
    SlicesConcat(xs, size);
    SlicesShape(xs, size);
    Slices(xs, size)
  }

  lemma {:induction false} SlicesConcat<T>(xs: seq<T>, size: nat)
    requires size > 0
    ensures Concat(Slices(xs, size)) == xs
    decreases |xs|
  {
    if 0 < |xs| <= size {
      assert Concat([xs]) == xs + Concat([xs][1..]);
    } else if |xs| > size {
      var rest := Slices(xs[size..], size);
      SlicesConcat(xs[size..], size);
      assert ([xs[..size]] + rest)[1..] == rest;
      assert xs[..size] + xs[size..] == xs;
    }
  }

  lemma {:induction false} SlicesShape<T>(xs: seq<T>, size: nat)
    requires size > 0
    ensures forall i | 0 <= i < |Slices(xs, size)| :: 0 < |Slices(xs, size)[i]| <= size
    ensures forall i | 0 <= i < |Slices(xs, size)| - 1 :: |Slices(xs, size)[i]| == size
    ensures |xs| == 0 <==> |Slices(xs, size)| == 0
    decreases |xs|
  {
    if |xs| > size {
      SlicesShape(xs[size..], size);
    }
  }

  lemma MulAtLeast(a: int, size: nat)
    requires a >= 1
    ensures a * size >= size
  {
    assert a * size == (a - 1) * size + size;
  }

  /** Euclidean division has one quotient. */
  lemma QuotientUnique(x: int, size: nat, q: int, r: int)
    requires size > 0 && x == q * size + r && 0 <= r < size
    ensures x / size == q
  {
    var q' := x / size;
    var r' := x % size;
    assert x == q' * size + r';
    assert 0 <= r' < size;
    assert q * size - q' * size == r' - r;
    assert (q - q') * size == q * size - q' * size;
    if q > q' {
      MulAtLeast(q - q', size);
    } else if q < q' {
      MulAtLeast(q' - q, size);
    }
  }

  /** The number of slices is the number of loop iterations: `|xs| / size`
      rounded up. */
  lemma {:induction false} ChunkCount<T>(xs: seq<T>, size: nat)
    requires size > 0
    ensures |Chunks(xs, size)| == (|xs| + size - 1) / size
    decreases |xs|
  {
    if |xs| == 0 {
      QuotientUnique(size - 1, size, 0, size - 1);
    } else if |xs| <= size {
      QuotientUnique(|xs| + size - 1, size, 1, |xs| - 1);
    } else {
      var rest := xs[size..];
      assert Chunks(xs, size) == [xs[..size]] + Chunks(rest, size);
      ChunkCount(rest, size);
      CeilingStep(|rest|, size);
    }
  }

  /** One more full slice is one more iteration. */
  lemma CeilingStep(k: nat, size: nat)
    requires size > 0
    ensures (k + size + size - 1) / size == (k + size - 1) / size + 1
  {
    var m := k + size - 1;
    var q := m / size;
    var r := m % size;
    assert m == q * size + r;
    assert (q + 1) * size == q * size + size;
    QuotientUnique(m + size, size, q + 1, r);
  }

  /** Slice `i` of the loop starts at `i * size`. */
  lemma {:induction false} SliceAt<T>(xs: seq<T>, size: nat, i: nat)
    requires size > 0 && i < |Slices(xs, size)|
    ensures i * size < |xs|
    ensures Slices(xs, size)[i] == xs[i * size .. Min(i * size + size, |xs|)]
    decreases |xs|
  {
    if |xs| <= size {
      assert xs[0 .. |xs|] == xs;
    } else if i > 0 {
      var rest := xs[size..];
      SliceAt(rest, size, i - 1);
      var lo := (i - 1) * size;
      var hi := Min(lo + size, |rest|);
      assert i * size == lo + size;
      SliceShift(xs, size, lo, hi);
    }
  }

  /** Slice `i` is exactly `xs.slice(i * size, i * size + size)`: the slices
      sit at offsets `0, size, 2 * size, ...`. */
  lemma ChunkAt<T>(xs: seq<T>, size: nat, i: nat)
    requires size > 0 && i < |Chunks(xs, size)|
    ensures i * size < |xs|
    ensures Chunks(xs, size)[i] == xs[i * size .. Min(i * size + size, |xs|)]
  {
    SliceAt(xs, size, i);
  }

  lemma SliceShift<T>(xs: seq<T>, size: nat, lo: nat, hi: nat)
    requires size <= |xs| && lo <= hi <= |xs| - size
    ensures xs[size..][lo..hi] == xs[lo + size .. hi + size]
  {
  }
}
