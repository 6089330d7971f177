/** Round-robin assignment of an ordered list to w workers: the item at
    index i goes to worker i % w, and each worker keeps its items in input
    order. */
module RoundRobin {

  /** The items of xs whose index is congruent to k modulo w, in input order. */
  function Bucket<T>(xs: seq<T>, w: nat, k: nat): (b: seq<T>)
    requires 0 < w
    ensures |b| <= |xs|
    decreases |xs|
  {
    if xs == [] then []
    else Bucket(xs[..|xs| - 1], w, k) + (if (|xs| - 1) % w == k then [xs[|xs| - 1]] else [])
  }

  /** One bucket per worker. */
  function Assign<T>(xs: seq<T>, w: nat): (ls: seq<seq<T>>)
    requires 0 < w
    ensures |ls| == w
  {
    seq(w, k requires 0 <= k < w => Bucket(xs, w, k))
  }

  function SumLengths<T>(ls: seq<seq<T>>): nat
  {
    if ls == [] then 0 else SumLengths(ls[..|ls| - 1]) + |ls[|ls| - 1]|
  }

  /** Appending an item to the input appends it to bucket |xs| % w and
      leaves every other bucket as it was. */
  lemma AssignAppend<T>(xs: seq<T>, x: T, w: nat)
    requires 0 < w
    ensures Assign(xs + [x], w) == Assign(xs, w)[|xs| % w := Assign(xs, w)[|xs| % w] + [x]]
  {
    var ys := xs + [x];
    assert ys[..|ys| - 1] == xs;
    var before, after := Assign(xs, w), Assign(ys, w);
    var expected := before[|xs| % w := before[|xs| % w] + [x]];
    forall k | 0 <= k < w
      ensures after[k] == expected[k]
    {
      assert after[k] == Bucket(ys, w, k) == Bucket(xs, w, k) + (if |xs| % w == k then [x] else []);
    }
  }

  lemma DivModStep(n: nat, w: nat)
    requires 0 < w
    ensures n % w + 1 < w ==> (n + 1) / w == n / w && (n + 1) % w == n % w + 1
    ensures n % w + 1 == w ==> (n + 1) / w == n / w + 1 && (n + 1) % w == 0
  {
    var q, r := n / w, n % w;
    assert n == q * w + r;
    if r + 1 < w {
      DivModUnique(n + 1, w, q, r + 1);
    } else {
      assert n + 1 == (q + 1) * w;
      DivModUnique(n + 1, w, q + 1, 0);
    }
  }

  lemma DivModUnique(a: int, w: int, q: int, r: int)
    requires 0 < w && 0 <= r < w && a == q * w + r
    ensures a / w == q && a % w == r
  {
    var q', r' := a / w, a % w;
    assert a == q' * w + r';
    if q' < q {
      MulAtLeast(q - q', w);
    } else if q' > q {
      MulAtLeast(q' - q, w);
    }
  }

  lemma MulAtLeast(m: int, w: int)
    requires 1 <= m && 0 <= w
    ensures w <= m * w
  {
    assert m * w == (m - 1) * w + w;
    assert 0 <= (m - 1) * w;
  }

  /** Bucket k holds |xs| / w items, plus one when k < |xs| % w. */
  lemma {:induction false} BucketLength<T>(xs: seq<T>, w: nat, k: nat)
    requires k < w
    ensures |Bucket(xs, w, k)| == |xs| / w + (if k < |xs| % w then 1 else 0)
    decreases |xs|
  {
    if xs != [] {
      var n := |xs| - 1;
      BucketLength(xs[..n], w, k);
      DivModStep(n, w);
    }
  }

  /** Any two buckets differ in size by at most one. */
  lemma Balanced<T>(xs: seq<T>, w: nat, j: nat, k: nat)
    requires j < w && k < w
    ensures |Bucket(xs, w, j)| <= |Bucket(xs, w, k)| + 1
  {
    BucketLength(xs, w, j);
    BucketLength(xs, w, k);
  }

  lemma {:induction false} SumLengthsUpdate<T>(ls: seq<seq<T>>, i: nat, x: T)
    requires i < |ls|
    ensures SumLengths(ls[i := ls[i] + [x]]) == SumLengths(ls) + 1
    decreases |ls|
  {
    var ls' := ls[i := ls[i] + [x]];
    var n := |ls| - 1;
    assert ls'[..n] == if i < n then ls[..n][i := ls[i] + [x]] else ls[..n];
    if i < n {
      SumLengthsUpdate(ls[..n], i, x);
    }
  }

  /** The bucket sizes add up to the number of items. */
  lemma {:induction false} AssignCoversAll<T>(xs: seq<T>, w: nat)
    requires 0 < w
    ensures SumLengths(Assign(xs, w)) == |xs|
    decreases |xs|
  {
    if xs == [] {
      SumLengthsEmpty(Assign(xs, w));
    } else {
      var n := |xs| - 1;
      AssignCoversAll(xs[..n], w);
      assert xs == xs[..n] + [xs[n]];
      AssignAppend(xs[..n], xs[n], w);
      SumLengthsUpdate(Assign(xs[..n], w), n % w, xs[n]);
    }
  }

  lemma {:induction false} SumLengthsEmpty<T>(ls: seq<seq<T>>)
    requires forall i :: 0 <= i < |ls| ==> ls[i] == []
    ensures SumLengths(ls) == 0
    decreases |ls|
  {
    if ls != [] {
      SumLengthsEmpty(ls[..|ls| - 1]);
    }
  }

  /** Item j of bucket k is the input item at index k + j * w, so a bucket
      lists the indices k, k + w, k + 2w, ... in increasing order. */
  lemma {:induction false} BucketAt<T>(xs: seq<T>, w: nat, k: nat, j: nat)
    requires k < w && j < |Bucket(xs, w, k)|
    ensures k + j * w < |xs| && Bucket(xs, w, k)[j] == xs[k + j * w]
    decreases |xs|
  {
    var n := |xs| - 1;
    var prev := Bucket(xs[..n], w, k);
    if j < |prev| {
      BucketAt(xs[..n], w, k, j);
      BucketAtEarlier(xs, w, k, j, k + j * w);
    } else {
      BucketAtLast(xs, w, k, j);
    }
  }

  /** An item a bucket already held before the last input item keeps its
      position. */
  lemma BucketAtEarlier<T>(xs: seq<T>, w: nat, k: nat, j: nat, m: nat)
    requires 0 < w && xs != [] && m < |xs| - 1
    requires j < |Bucket(xs[..|xs| - 1], w, k)| && Bucket(xs[..|xs| - 1], w, k)[j] == xs[..|xs| - 1][m]
    ensures j < |Bucket(xs, w, k)| && Bucket(xs, w, k)[j] == xs[m]
  {
  }

  /** The last item of a bucket that just grew is the last input item. */
  lemma BucketAtLast<T>(xs: seq<T>, w: nat, k: nat, j: nat)
    requires k < w && j < |Bucket(xs, w, k)| && xs != [] && |Bucket(xs[..|xs| - 1], w, k)| <= j
    ensures k + j * w == |xs| - 1 && Bucket(xs, w, k)[j] == xs[|xs| - 1]
  {
    var n := |xs| - 1;
    BucketLength(xs[..n], w, k);
    SlotOf(n, w);
  }

  /** The input item at index i sits in bucket i % w at position i / w. */
  lemma {:induction false} Placement<T>(xs: seq<T>, w: nat, i: nat)
    requires 0 < w && i < |xs|
    ensures i / w < |Bucket(xs, w, i % w)| && Bucket(xs, w, i % w)[i / w] == xs[i]
  {
    PlacementInRange(xs, w, i);
    SlotOf(i, w);
    ItemAt(xs, w, i % w, i / w, i);
  }

  /** Entry j of bucket k is the input item at index i = k + j * w. */
  lemma ItemAt<T>(xs: seq<T>, w: nat, k: nat, j: nat, i: nat)
    requires k < w && j < |Bucket(xs, w, k)| && k + j * w == i
    ensures i < |xs| && Bucket(xs, w, k)[j] == xs[i]
  {
    BucketAt(xs, w, k, j);
  }

  lemma PlacementInRange<T>(xs: seq<T>, w: nat, i: nat)
    requires 0 < w && i < |xs|
    ensures i / w < |Bucket(xs, w, i % w)|
  {
    BucketLength(xs, w, i % w);
    QuotientOrder(i, |xs|, w);
  }

  /** Bucket i % w, position i / w, is index i. */
  lemma SlotOf(i: nat, w: nat)
    requires 0 < w
    ensures i % w + i / w * w == i
  {
  }

  lemma QuotientOrder(i: nat, n: nat, w: nat)
    requires 0 < w && i < n
    ensures i / w < n / w || (i / w == n / w && i % w < n % w)
  {
    var a, b, q, r := i / w, i % w, n / w, n % w;
    assert i == a * w + b && n == q * w + r;
    if a > q {
      MulAtLeast(a - q, w);
    }
  }

  /** With no repeated items, an item is in bucket k exactly when k is its
      index modulo w: every item is in one bucket and only one. */
  lemma ExactlyOneBucket<T>(xs: seq<T>, w: nat, i: nat, k: nat)
    requires i < |xs| && k < w
    requires forall a, b :: 0 <= a < |xs| && 0 <= b < |xs| && a != b ==> xs[a] != xs[b]
    ensures xs[i] in Bucket(xs, w, k) <==> k == i % w
  {
    Placement(xs, w, i);
    var bk := Bucket(xs, w, k);
    if xs[i] in bk {
      var j :| 0 <= j < |bk| && bk[j] == xs[i];
      BucketAt(xs, w, k, j);
      var m := k + j * w;
      SlotMod(k, j, w);
      assert xs[m] == xs[i];
    }
  }

  /** Position j of bucket k is an index congruent to k modulo w. */
  lemma SlotMod(k: nat, j: nat, w: nat)
    requires k < w
    ensures (k + j * w) % w == k
  {
    DivModUnique(k + j * w, w, j, k);
  }
}
