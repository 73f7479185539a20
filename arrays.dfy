/** The numpy and phylib array helpers the views and the controller rely on,
    over sequences of integers: `np.unique`, `np.bincount`, `np.arange`,
    `np.intersect1d`, `np.in1d`, boolean-mask indexing and `_index_of`. */
module ArrayOps {

  predicate StrictlyIncreasing(s: seq<int>)
  {
    forall i, j :: 0 <= i < j < |s| ==> s[i] < s[j]
  }

  /** Number of occurrences of `v` in `xs`. */
  function Count<T(==)>(xs: seq<T>, v: T): (n: nat)
    ensures n <= |xs|
    ensures n == 0 <==> v !in xs
  {
    if xs == [] then 0
    else Count(xs[..|xs| - 1], v) + (if xs[|xs| - 1] == v then 1 else 0)
  }

  // ---------------------------------------------------------------------------
  // np.unique: the sorted distinct values
  // ---------------------------------------------------------------------------

  /** Inserts `x` into a strictly increasing sequence unless it is already
      there; `InsertSortedSpec` states what it gives. */
  function InsertSorted(x: int, s: seq<int>): seq<int>
  {
    if s == [] then [x]
    else if x < s[0] then [x] + s
    else if x == s[0] then s
    else [s[0]] + InsertSorted(x, s[1..])
  }

  /** Inserting adds exactly `x` to the elements. */
  lemma {:induction false} InsertSortedElements(x: int, s: seq<int>)
    ensures forall y :: y in InsertSorted(x, s) <==> y == x || y in s
  {
    if s != [] && x > s[0] {
      InsertSortedElements(x, s[1..]);
      assert s == [s[0]] + s[1..];
    }
  }

  /** Inserting keeps the sequence strictly increasing and adds exactly `x`. */
  lemma {:induction false} InsertSortedSpec(x: int, s: seq<int>)
    requires StrictlyIncreasing(s)
    ensures StrictlyIncreasing(InsertSorted(x, s))
    ensures forall y :: y in InsertSorted(x, s) <==> y == x || y in s
  {
    InsertSortedElements(x, s);
    var r := InsertSorted(x, s);
    if s != [] && x < s[0] {
      forall i, j | 0 <= i < j < |r| ensures r[i] < r[j] {
        assert r[j] == s[j - 1];
        if i > 0 {
          assert r[i] == s[i - 1];
        } else {
          assert s[0] <= s[j - 1];
        }
      }
    } else if s != [] && x > s[0] {
      var rest := InsertSorted(x, s[1..]);
      InsertSortedSpec(x, s[1..]);
      assert r == [s[0]] + rest;
      forall i, j | 0 <= i < j < |r| ensures r[i] < r[j] {
        assert r[j] == rest[j - 1] && rest[j - 1] in rest;
        if i > 0 {
          assert r[i] == rest[i - 1];
        } else {
          assert rest[j - 1] == x || rest[j - 1] in s[1..];
        }
      }
    }
  }

  /** `np.unique(xs)`: every value of `xs` once, in increasing order. */
  function Unique(xs: seq<int>): (r: seq<int>)
    ensures StrictlyIncreasing(r)
    ensures forall y :: y in r <==> y in xs
  {
    if xs == [] then []
    else
      InsertSortedSpec(xs[|xs| - 1], Unique(xs[..|xs| - 1]));
      InsertSorted(xs[|xs| - 1], Unique(xs[..|xs| - 1]))
  }

  /** A strictly increasing sequence is determined by its elements, so the
      two ensures of `Unique` describe its result completely. */
  lemma {:induction false} IncreasingDeterminedByElements(a: seq<int>, b: seq<int>)
    requires StrictlyIncreasing(a) && StrictlyIncreasing(b)
    requires forall y :: y in a <==> y in b
    ensures a == b
  {
    assert a != [] ==> a[0] in a && a[0] in b;
    assert b != [] ==> b[0] in b && b[0] in a;
    if a != [] && b != [] {
      // The first element of each is the smallest element of the other.
      var ka :| 0 <= ka < |a| && a[ka] == b[0];
      var kb :| 0 <= kb < |b| && b[kb] == a[0];
      assert a[0] <= a[ka] && b[0] <= b[kb];
      assert a == [a[0]] + a[1..] && b == [b[0]] + b[1..];
      forall y ensures y in a[1..] <==> y in b[1..] {
        if y in a[1..] {
          assert y in b && y != b[0];
        }
        if y in b[1..] {
          assert y in a && y != a[0];
        }
      }
      IncreasingDeterminedByElements(a[1..], b[1..]);
    }
  }

  // ---------------------------------------------------------------------------
  // np.bincount(xs, minlength)
  // ---------------------------------------------------------------------------

  function Zeros(n: nat): (r: seq<nat>)
    ensures |r| == n && forall i :: 0 <= i < n ==> r[i] == 0
  {
    seq(n, _ => 0)
  }

  /** `np.bincount(xs, minlength=minLength)`: entry t counts the occurrences
      of t; the result has `minLength` entries, or more when a value of `xs`
      is at least `minLength` (then exactly one past the largest value). */
  function BinCount(xs: seq<nat>, minLength: nat): (r: seq<nat>)
    ensures |r| >= minLength
    ensures forall x :: x in xs ==> x < |r|
    ensures |r| > minLength ==> |r| - 1 in xs
    ensures forall t: nat :: t < |r| ==> r[t] == Count(xs, t)
  {
    if xs == [] then Zeros(minLength)
    else
      var init, x := xs[..|xs| - 1], xs[|xs| - 1];
      assert xs == init + [x];
      var r0 := BinCount(init, minLength);
      assert forall t: nat :: |r0| <= t ==> t !in init;
      Bump(r0, x)
  }

  /** One more occurrence of `x` in a histogram, extended with zeros when
      `x` is past its end. */
  function Bump(r0: seq<nat>, x: nat): (r: seq<nat>)
    ensures |r| == if x < |r0| then |r0| else x + 1
    ensures r[x] == (if x < |r0| then r0[x] else 0) + 1
    ensures forall t :: 0 <= t < |r| && t != x ==> r[t] == if t < |r0| then r0[t] else 0
  {
    var padded := if x < |r0| then r0 else r0 + Zeros(x + 1 - |r0|);
    padded[x := padded[x] + 1]
  }

  // ---------------------------------------------------------------------------
  // np.arange(0, stop, step)
  // ---------------------------------------------------------------------------

  /** The values start, start + step, ... below `stop`, increasing. */
  function ArangeFrom(start: int, stop: int, step: nat): (r: seq<int>)
    requires step >= 1
    ensures forall k :: 0 <= k < |r| ==> start <= r[k] < stop
    ensures start < stop ==> r != [] && r[0] == start && r[|r| - 1] + step >= stop
    decreases stop - start
  {
    if start >= stop then []
    else
      var rest := ArangeFrom(start + step, stop, step);
      assert forall k :: 1 <= k <= |rest| ==> ([start] + rest)[k] == rest[k - 1];
      [start] + rest
  }

  /** The k-th value is start + k * step. */
  lemma {:induction false} ArangeFromValues(start: int, stop: int, step: nat)
    requires step >= 1
    ensures forall k :: 0 <= k < |ArangeFrom(start, stop, step)| ==> ArangeFrom(start, stop, step)[k] == start + k * step
    decreases stop - start
  {
    if start < stop {
      var rest := ArangeFrom(start + step, stop, step);
      ArangeFromValues(start + step, stop, step);
      var r := ArangeFrom(start, stop, step);
      assert r == [start] + rest;
      forall k | 1 <= k < |r| ensures r[k] == start + k * step {
        assert r[k] == rest[k - 1] == start + step + (k - 1) * step;
        ShiftProduct(k, step);
      }
    }
  }

  lemma ShiftProduct(k: int, step: int)
    ensures step + (k - 1) * step == k * step
  {
  }

  /** `np.arange(0, stop, step)`: 0, step, 2 * step, ... up to the last
      multiple of `step` below `stop`, in increasing order. */
  function Arange(stop: int, step: nat): (r: seq<int>)
    requires step >= 1
    ensures forall k :: 0 <= k < |r| ==> r[k] == k * step && r[k] < stop
    ensures 0 < stop ==> r != [] && r[|r| - 1] + step >= stop
    ensures StrictlyIncreasing(r)
  {
    ArangeFromIncreasing(0, stop, step);
    ArangeFromValues(0, stop, step);
    ArangeFrom(0, stop, step)
  }

  lemma {:induction false} ArangeFromIncreasing(start: int, stop: int, step: nat)
    requires step >= 1
    ensures StrictlyIncreasing(ArangeFrom(start, stop, step))
    decreases stop - start
  {
    if start < stop {
      var rest := ArangeFrom(start + step, stop, step);
      ArangeFromIncreasing(start + step, stop, step);
      var r := ArangeFrom(start, stop, step);
      assert r == [start] + rest;
      forall i, j | 0 <= i < j < |r| ensures r[i] < r[j] {
        assert r[j] == rest[j - 1];
        if i > 0 {
          assert r[i] == rest[i - 1];
        }
      }
    }
  }

  // ---------------------------------------------------------------------------
  // np.intersect1d, np.in1d, boolean indexing, _index_of
  // ---------------------------------------------------------------------------

  /** The elements of `a` that also occur in `b`, in the order of `a`. */
  function KeepIn(a: seq<int>, b: seq<int>): (r: seq<int>)
    ensures forall y :: y in r <==> y in a && y in b
  {
    if a == [] then []
    else (if a[0] in b then [a[0]] else []) + KeepIn(a[1..], b)
  }

  /** `np.intersect1d(a, b)`: the sorted distinct values found in both. */
  function Intersect1d(a: seq<int>, b: seq<int>): (r: seq<int>)
    ensures StrictlyIncreasing(r)
    ensures forall y :: y in r <==> y in a && y in b
  {
    Unique(KeepIn(a, b))
  }

  /** The non-negative elements of `xs`, in order. */
  function NonNegative(xs: seq<int>): (r: seq<int>)
    ensures forall y :: y in r <==> y in xs && y >= 0
  {
    if xs == [] then []
    else (if xs[0] >= 0 then [xs[0]] else []) + NonNegative(xs[1..])
  }

  /** phylib's `_unique`: the distinct cluster ids in increasing order,
      without the negative ones (-1 marks an unclustered spike). */
  function UniqueClusters(xs: seq<int>): (r: seq<int>)
    ensures StrictlyIncreasing(r)
    ensures forall y :: y in r <==> y in xs && y >= 0
  {
    Unique(NonNegative(xs))
  }

  /** `np.in1d(a, b)`: for each element of `a`, whether it occurs in `b`. */
  function In1d(a: seq<int>, b: seq<int>): (r: seq<bool>)
    ensures |r| == |a|
    ensures forall i :: 0 <= i < |a| ==> (r[i] <==> a[i] in b)
  {
    seq(|a|, i requires 0 <= i < |a| => a[i] in b)
  }

  /** The positions whose mask entry is true, in increasing order
      (`TrueIndicesSpec`). */
  function TrueIndices(mask: seq<bool>): (r: seq<int>)
    ensures forall k :: 0 <= k < |r| ==> 0 <= r[k] < |mask| && mask[r[k]]
  {
    if mask == [] then []
    else
      var init := TrueIndices(mask[..|mask| - 1]);
      assert forall k :: 0 <= k < |init| ==> mask[..|mask| - 1][init[k]] == mask[init[k]];
      init + (if mask[|mask| - 1] then [|mask| - 1] else [])
  }

  /** Exactly the true positions are listed, each once and in increasing order. */
  lemma {:induction false} TrueIndicesSpec(mask: seq<bool>)
    ensures StrictlyIncreasing(TrueIndices(mask))
    ensures forall i :: i in TrueIndices(mask) <==> 0 <= i < |mask| && mask[i]
  {
    if mask != [] {
      var prefix := mask[..|mask| - 1];
      var init := TrueIndices(prefix);
      TrueIndicesSpec(prefix);
      var r := TrueIndices(mask);
      assert r == init + (if mask[|mask| - 1] then [|mask| - 1] else []);
      forall i, j | 0 <= i < j < |r| ensures r[i] < r[j] {
        if j >= |init| {
          assert r[i] == init[i];
        }
      }
      forall i ensures i in r <==> 0 <= i < |mask| && mask[i] {
        if 0 <= i < |mask| - 1 {
          assert prefix[i] == mask[i];
        }
      }
    }
  }

  /** `xs[mask]`: the elements whose mask entry is true, in their order. */
  function Compress<T>(xs: seq<T>, mask: seq<bool>): (r: seq<T>)
    requires |xs| == |mask|
    ensures |r| == |TrueIndices(mask)|
    ensures forall k :: 0 <= k < |r| ==> r[k] == xs[TrueIndices(mask)[k]]
  {
    var idx := TrueIndices(mask);
    forall k | 0 <= k < |idx| ensures 0 <= idx[k] < |xs| {
      assert idx[k] in idx;
    }
    seq(|idx|, k requires 0 <= k < |idx| => xs[idx[k]])
  }

  /** `_index_of(x, lookup)` for one value: the position of `x` in `lookup`.
      Should `lookup` repeat it, the last position wins, as with numpy's
      fancy assignment `tmp[lookup] = arange(len(lookup))`. */
  function IndexOf(lookup: seq<int>, x: int): (i: nat)
    requires x in lookup
    ensures i < |lookup| && lookup[i] == x
    ensures forall j :: i < j < |lookup| ==> lookup[j] != x
  {
    if lookup[|lookup| - 1] == x then |lookup| - 1 else IndexOf(lookup[..|lookup| - 1], x)
  }

  /** `xs.max()` of a non-empty sequence. */
  function Max(xs: seq<int>): (m: int)
    requires xs != []
    ensures m in xs && forall x :: x in xs ==> x <= m
  {
    if |xs| == 1 then xs[0]
    else
      var m0 := Max(xs[1..]);
      assert forall x :: x in xs ==> x == xs[0] || x in xs[1..];
      if xs[0] > m0 then xs[0] else m0
  }

  /** `np.argmax(xs)`: the first position of the largest value. */
  function ArgMax(xs: seq<nat>): (i: nat)
    requires xs != []
    ensures i < |xs|
    ensures forall j :: 0 <= j < |xs| ==> xs[j] <= xs[i]
    ensures forall j :: 0 <= j < i ==> xs[j] < xs[i]
  {
    if |xs| == 1 then 0
    else
      var i0 := ArgMax(xs[..|xs| - 1]);
      if xs[|xs| - 1] > xs[i0] then |xs| - 1 else i0
  }

  /** The sum of the entries. */
  function Sum(xs: seq<nat>): nat
  {
    if xs == [] then 0 else Sum(xs[..|xs| - 1]) + xs[|xs| - 1]
  }

  lemma {:induction false} SumAppend(a: seq<nat>, b: seq<nat>)
    ensures Sum(a + b) == Sum(a) + Sum(b)
    decreases |b|
  {
    if b == [] {
      assert a + b == a;
    } else {
      assert (a + b)[..|a + b| - 1] == a + b[..|b| - 1];
      SumAppend(a, b[..|b| - 1]);
    }
  }

  lemma {:induction false} SumZeros(n: nat)
    ensures Sum(Zeros(n)) == 0
  {
    if n > 0 {
      assert Zeros(n)[..n - 1] == Zeros(n - 1);
      SumZeros(n - 1);
    }
  }

  /** Adding one to an entry adds one to the sum. */
  lemma {:induction false} SumIncrement(s: seq<nat>, x: nat)
    requires x < |s|
    ensures Sum(s[x := s[x] + 1]) == Sum(s) + 1
  {
    var t := s[x := s[x] + 1];
    assert s == s[..x] + [s[x]] + s[x + 1..];
    assert t == s[..x] + [s[x] + 1] + s[x + 1..];
    SumAppend(s[..x] + [s[x]], s[x + 1..]);
    SumAppend(s[..x] + [s[x] + 1], s[x + 1..]);
    SumAppend(s[..x], [s[x]]);
    SumAppend(s[..x], [s[x] + 1]);
  }

  /** Bumping an entry adds one to the sum. */
  lemma BumpSum(r0: seq<nat>, x: nat)
    ensures Sum(Bump(r0, x)) == Sum(r0) + 1
  {
    var padded := if x < |r0| then r0 else r0 + Zeros(x + 1 - |r0|);
    if x >= |r0| {
      SumAppend(r0, Zeros(x + 1 - |r0|));
      SumZeros(x + 1 - |r0|);
    }
    SumIncrement(padded, x);
  }

  /** The histogram counts every value once: its entries sum to the number
      of values. */
  lemma {:induction false} BinCountTotal(xs: seq<nat>, minLength: nat)
    ensures Sum(BinCount(xs, minLength)) == |xs|
  {
    if xs == [] {
      SumZeros(minLength);
    } else {
      var init, x := xs[..|xs| - 1], xs[|xs| - 1];
      BinCountTotal(init, minLength);
      assert BinCount(xs, minLength) == Bump(BinCount(init, minLength), x);
      BumpSum(BinCount(init, minLength), x);
    }
  }
}
