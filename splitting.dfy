/**
 * The train/val/test cut of `preprocess_and_split` (src/preprocess.py:170-175):
 * `int(n * ratio)` counts and three consecutive Python slices of the shuffled list.
 */
module Splitting {

  /** Python's `int(x)` on a number: truncation toward zero. */
  function Trunc(x: real): int
  {
    if x >= 0.0 then x.Floor else -((-x).Floor)
  }

  /** Python's clamping of a slice bound `i` against a length `n` (negative bounds count from the end). */
  function Bound(i: int, n: nat): (b: nat)
    ensures b <= n
  {
    if i < 0 then (if i + n < 0 then 0 else i + n)
    else if i > n then n
    else i
  }

  /** Python's `s[start:stop]`. */
  function Slice<T>(s: seq<T>, start: int, stop: int): seq<T>
  {
    var a, b := Bound(start, |s|), Bound(stop, |s|);
    if a < b then s[a..b] else []
  }

  /** The three splits, in the order the source processes them. */
  datatype Parts<T> = Parts(train: seq<T>, val: seq<T>, test: seq<T>)

  /**
   * `train = s[:tc]`, `val = s[tc:tc + vc]`, `test = s[tc + vc:]` with
   * `tc = int(n * trainSplit)` and `vc = int(n * valSplit)`; the test ratio
   * plays no part.
   */
  function SplitImages<T>(s: seq<T>, trainSplit: real, valSplit: real): Parts<T>
  {
    var tc := SplitCount(|s|, trainSplit);
    var vc := SplitCount(|s|, valSplit);
    Parts(Slice(s, 0, tc), Slice(s, tc, tc + vc), Slice(s, tc + vc, |s|))
  }

  /** `int(n * ratio)`: the number of images a ratio asks for. */
  function SplitCount(n: nat, ratio: real): int
  {
    Trunc(n as real * ratio)
  }

  /** No element occurs twice. */
  predicate NoDuplicates<T(==)>(s: seq<T>)
  {
    forall i, j :: 0 <= i < j < |s| ==> s[i] != s[j]
  }

  /** Slicing at `0 <= a` and `a <= a + b` cuts `s` into three consecutive pieces. */
  lemma SliceThree<T>(s: seq<T>, a: int, b: int)
    requires 0 <= a && 0 <= b
    ensures Slice(s, 0, a) + Slice(s, a, a + b) + Slice(s, a + b, |s|) == s
    ensures Slice(s, 0, a) == s[..Bound(a, |s|)]
    ensures Slice(s, a, a + b) == s[Bound(a, |s|)..Bound(a + b, |s|)]
    ensures Slice(s, a + b, |s|) == s[Bound(a + b, |s|)..]
  {
    var i, j := Bound(a, |s|), Bound(a + b, |s|);
    assert i <= j;
    assert s[..i] + s[i..j] + s[j..] == s;
  }

  /** A product of non-negative reals is non-negative. */
  lemma ProductNonNegative(x: real, y: real)
    requires x >= 0.0 && y >= 0.0
    ensures x * y >= 0.0
  {
  }

  /** With non-negative ratios the three splits are consecutive pieces whose concatenation is the list. */
  lemma SplitIsPartition<T>(s: seq<T>, trainSplit: real, valSplit: real)
    requires trainSplit >= 0.0 && valSplit >= 0.0
    ensures var p := SplitImages(s, trainSplit, valSplit);
      p.train + p.val + p.test == s && |p.train| + |p.val| + |p.test| == |s|
  {
    var n := |s| as real;
    ProductNonNegative(n, trainSplit);
    ProductNonNegative(n, valSplit);
    SliceThree(s, SplitCount(|s|, trainSplit), SplitCount(|s|, valSplit));
  }

  /** For a non-negative ratio the count is the floor of the exact share. */
  lemma CountIsFloor(n: nat, ratio: real)
    requires ratio >= 0.0
    ensures SplitCount(n, ratio) == (n as real * ratio).Floor
    ensures 0 <= SplitCount(n, ratio)
    ensures SplitCount(n, ratio) as real <= n as real * ratio < SplitCount(n, ratio) as real + 1.0
  {
    ProductNonNegative(n as real, ratio);
  }

  /** `n * t + n * v <= n` for `t + v <= 1`. */
  lemma SharesFit(n: real, t: real, v: real)
    requires n >= 0.0 && t >= 0.0 && v >= 0.0 && t + v <= 1.0
    ensures n * t + n * v <= n
  {
    ProductNonNegative(n, 1.0 - t - v);
    assert n * (1.0 - t - v) == n - n * t - n * v;
  }

  /** The train and val counts fit in the list, leaving test between its exact share and two more. */
  lemma CountsFit(n: nat, t: real, v: real)
    requires t >= 0.0 && v >= 0.0 && t + v <= 1.0
    ensures 0 <= SplitCount(n, t) && 0 <= SplitCount(n, v) && SplitCount(n, t) + SplitCount(n, v) <= n
    ensures var exact := n as real - n as real * t - n as real * v;
      exact <= (n - SplitCount(n, t) - SplitCount(n, v)) as real < exact + 2.0
  {
    CountIsFloor(n, t);
    CountIsFloor(n, v);
    SharesFit(n as real, t, v);
    var a, b := SplitCount(n, t), SplitCount(n, v);
    var x, y := n as real * t, n as real * v;
    assert a as real <= x < a as real + 1.0;
    assert b as real <= y < b as real + 1.0;
    assert x + y <= n as real;
    assert (a + b) as real <= n as real;
    assert (n - a - b) as real == n as real - a as real - b as real;
  }

  /** Slice sizes for counts `a` and `b` that fit in `s`. */
  lemma CountedSlices<T>(s: seq<T>, a: int, b: int)
    requires 0 <= a && 0 <= b && a + b <= |s|
    ensures |Slice(s, 0, a)| == a && |Slice(s, a, a + b)| == b && |Slice(s, a + b, |s|)| == |s| - a - b
  {
  }

  /**
   * When the train and val ratios add up to at most one, train and val get the
   * floored shares and test gets everything left: the flooring remainders all
   * land in test, which receives at least its exact share and less than two
   * images more.
   */
  lemma SplitSizes<T>(s: seq<T>, trainSplit: real, valSplit: real)
    requires trainSplit >= 0.0 && valSplit >= 0.0 && trainSplit + valSplit <= 1.0
    ensures |SplitImages(s, trainSplit, valSplit).train| == (|s| as real * trainSplit).Floor
    ensures |SplitImages(s, trainSplit, valSplit).val| == (|s| as real * valSplit).Floor
    ensures |SplitImages(s, trainSplit, valSplit).test|
         == |s| - (|s| as real * trainSplit).Floor - (|s| as real * valSplit).Floor
    ensures var exact := |s| as real - |s| as real * trainSplit - |s| as real * valSplit;
      exact <= |SplitImages(s, trainSplit, valSplit).test| as real < exact + 2.0
  {
    var a, b := SplitCount(|s|, trainSplit), SplitCount(|s|, valSplit);
    CountIsFloor(|s|, trainSplit);
    CountIsFloor(|s|, valSplit);
    CountsFit(|s|, trainSplit, valSplit);
    CountedSlices(s, a, b);
  }

  /** Without duplicates in the shuffled list, no image lands in two splits. */
  lemma SplitsDisjoint<T>(s: seq<T>, trainSplit: real, valSplit: real)
    requires trainSplit >= 0.0 && valSplit >= 0.0
    requires NoDuplicates(s)
    ensures var p := SplitImages(s, trainSplit, valSplit);
      && (forall x :: x in p.train ==> x !in p.val && x !in p.test)
      && (forall x :: x in p.val ==> x !in p.test)
  {
    var p := SplitImages(s, trainSplit, valSplit);
    SplitIsPartition(s, trainSplit, valSplit);
    var t, v := |p.train|, |p.val|;
    assert forall i :: 0 <= i < t ==> p.train[i] == s[i];
    assert forall j :: 0 <= j < v ==> p.val[j] == s[t + j];
    assert forall j :: 0 <= j < |p.test| ==> p.test[j] == s[t + v + j];
  }

  /** 300 images at 0.8/0.1 give 240/30/30. */
  lemma ThreeHundredImages<T>(s: seq<T>)
    requires |s| == 300
    ensures var p := SplitImages(s, 0.8, 0.1);
      |p.train| == 240 && |p.val| == 30 && |p.test| == 30
  {
    SplitSizes(s, 0.8, 0.1);
    assert (300.0 * 0.8).Floor == 240 && (300.0 * 0.1).Floor == 30;
  }
}
