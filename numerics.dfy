/** Option and Result wrappers used for the source's `None` values and raised errors. */
module Wrappers {
  datatype Option<+T> = None | Some(value: T)
  {
    function GetOr(default: T): T
    {
      match this
      case Some(v) => v
      case None => default
    }
  }

  /** `Err` stands for a raised exception, carrying its message. */
  datatype Result<+T> = Ok(value: T) | Err(message: string)
}

/**
 * Column arithmetic on real sequences: the numpy/pandas reductions the
 * design-matrix code relies on (sum, cumulative sum, mean, max, min).
 * Reals are exact here; floating-point rounding is not modelled.
 */
module Columns {

  /** Sum of all elements, accumulated from the front (as `ndarray.sum`). */
  function Sum(s: seq<real>): real
  {
    if |s| == 0 then 0.0 else Sum(s[..|s| - 1]) + s[|s| - 1]
  }

  /** `np.cumsum`: element k is the sum of s[0..k]. */
  function CumSum(s: seq<real>): (r: seq<real>)
    ensures |r| == |s|
  {
    seq(|s|, k requires 0 <= k < |s| => Sum(s[..k + 1]))
  }

  /** The running sum starts at the first element. */
  lemma CumSumFirst(s: seq<real>)
    requires |s| > 0
    ensures CumSum(s)[0] == s[0]
  {
    assert s[..1][..0] == [];
    assert Sum(s[..1]) == Sum([]) + s[0];
  }

  /** The running sum grows by exactly the next element. */
  lemma CumSumStep(s: seq<real>, k: nat)
    requires 0 < k < |s|
    ensures CumSum(s)[k] == CumSum(s)[k - 1] + s[k]
  {
    assert s[..k + 1][..k] == s[..k];
  }

  /** Every element shifted down by m. */
  function Shift(c: seq<real>, m: real): (r: seq<real>)
    ensures |r| == |c|
  {
    seq(|c|, i requires 0 <= i < |c| => c[i] - m)
  }

  lemma {:induction false} SumShift(c: seq<real>, m: real)
    ensures Sum(Shift(c, m)) == Sum(c) - (|c| as real) * m
  {
    if |c| > 0 {
      var init := c[..|c| - 1];
      SumShift(init, m);
      assert Shift(c, m)[..|c| - 1] == Shift(init, m);
    }
  }

  /** The column mean (`DataFrame.mean`); pandas gives NaN for an empty column. */
  function Mean(c: seq<real>): (m: real)
    requires |c| > 0
    ensures m * (|c| as real) == Sum(c)
  {
    Sum(c) / (|c| as real)
  }

  /** `X -= X.mean()` on one column. */
  function Demean(c: seq<real>): (r: seq<real>)
    requires |c| > 0
    ensures |r| == |c|
    ensures forall i :: 0 <= i < |c| ==> r[i] == c[i] - Mean(c)
    ensures Sum(r) == 0.0
  {
    SumShift(c, Mean(c));
    Shift(c, Mean(c))
  }

  function Max(c: seq<real>): (r: real)
    requires |c| > 0
    ensures r in c
    ensures forall i :: 0 <= i < |c| ==> c[i] <= r
  {
    if |c| == 1 then c[0]
    else
      var m := Max(c[..|c| - 1]);
      if m < c[|c| - 1] then c[|c| - 1] else m
  }

  function Min(c: seq<real>): (r: real)
    requires |c| > 0
    ensures r in c
    ensures forall i :: 0 <= i < |c| ==> r <= c[i]
  {
    if |c| == 1 then c[0]
    else
      var m := Min(c[..|c| - 1]);
      if c[|c| - 1] < m then c[|c| - 1] else m
  }

  /** Peak-to-peak height `c.max() - c.min()`, as recorded in `pp_heights`. */
  function PeakToPeak(c: seq<real>): (r: real)
    requires |c| > 0
    ensures r >= 0.0
    ensures forall i, j :: 0 <= i < |c| && 0 <= j < |c| ==> c[i] - c[j] <= r
    ensures exists i, j :: 0 <= i < |c| && 0 <= j < |c| && c[i] - c[j] == r
  {
    ExtremesAttained(c);
    Max(c) - Min(c)
  }

  /** The maximum and the minimum are samples of the column. */
  lemma ExtremesAttained(c: seq<real>)
    requires |c| > 0
    ensures exists i, j :: 0 <= i < |c| && 0 <= j < |c| && c[i] - c[j] == Max(c) - Min(c)
  {
    var i :| 0 <= i < |c| && c[i] == Max(c);
    var j :| 0 <= j < |c| && c[j] == Min(c);
    assert c[i] - c[j] == Max(c) - Min(c);
  }

  /** Shifting a column by a constant does not change its peak-to-peak height. */
  lemma PeakToPeakShift(c: seq<real>, m: real)
    requires |c| > 0
    ensures PeakToPeak(Shift(c, m)) == PeakToPeak(c)
  {
    MaxShift(c, m);
    MinShift(c, m);
  }

  lemma MaxShift(c: seq<real>, m: real)
    requires |c| > 0
    ensures Max(Shift(c, m)) == Max(c) - m
  {
    var s := Shift(c, m);
    var i :| 0 <= i < |c| && c[i] == Max(c);
    var p :| 0 <= p < |s| && s[p] == Max(s);
    assert s[i] <= Max(s) && Max(s) == c[p] - m;
  }

  lemma MinShift(c: seq<real>, m: real)
    requires |c| > 0
    ensures Min(Shift(c, m)) == Min(c) - m
  {
    var s := Shift(c, m);
    var j :| 0 <= j < |c| && c[j] == Min(c);
    var q :| 0 <= q < |s| && s[q] == Min(s);
    assert Min(s) <= s[j] && Min(s) == c[q] - m;
  }

  /** `X -= X.mean()` on every column of a matrix of ntp rows. */
  function DemeanAll(cols: seq<seq<real>>, ntp: nat): (r: seq<seq<real>>)
    requires ntp > 0 && forall c :: 0 <= c < |cols| ==> |cols[c]| == ntp
    ensures |r| == |cols|
    ensures forall c :: 0 <= c < |cols| ==> r[c] == Demean(cols[c])
    ensures forall c :: 0 <= c < |cols| ==> |r[c]| == ntp && Sum(r[c]) == 0.0
  {
    seq(|cols|, c requires 0 <= c < |cols| => Demean(cols[c]))
  }

  /** `(X.max() - X.min()).tolist()`: the peak-to-peak height of every column. */
  function Heights(cols: seq<seq<real>>, ntp: nat): (h: seq<real>)
    requires ntp > 0 && forall c :: 0 <= c < |cols| ==> |cols[c]| == ntp
    ensures |h| == |cols|
    ensures forall c :: 0 <= c < |cols| ==> h[c] == PeakToPeak(cols[c])
  {
    seq(|cols|, c requires 0 <= c < |cols| => PeakToPeak(cols[c]))
  }

  /** Demeaning leaves every column's height as it was. */
  lemma HeightsDemeaned(cols: seq<seq<real>>, ntp: nat)
    requires ntp > 0 && forall c :: 0 <= c < |cols| ==> |cols[c]| == ntp
    ensures Heights(DemeanAll(cols, ntp), ntp) == Heights(cols, ntp)
  {
    forall c | 0 <= c < |cols|
      ensures PeakToPeak(DemeanAll(cols, ntp)[c]) == PeakToPeak(cols[c])
    {
      PeakToPeakShift(cols[c], Mean(cols[c]));
    }
  }

  /** Row-times-vector product, one row of `np.dot(F, v)`. */
  function Dot(row: seq<real>, v: seq<real>): real
    requires |row| == |v|
  {
    if |v| == 0 then 0.0 else Dot(row[..|v| - 1], v[..|v| - 1]) + row[|v| - 1] * v[|v| - 1]
  }

  /** `np.dot(F, v)` for a matrix given as a sequence of rows. */
  function MatVec(f: seq<seq<real>>, v: seq<real>): (r: seq<real>)
    requires forall i :: 0 <= i < |f| ==> |f[i]| == |v|
    ensures |r| == |f|
  {
    seq(|f|, i requires 0 <= i < |f| => Dot(f[i], v))
  }

  /** Element-wise sum of two columns of equal length. */
  function Plus(a: seq<real>, b: seq<real>): (r: seq<real>)
    requires |a| == |b|
    ensures |r| == |a| && forall i :: 0 <= i < |a| ==> r[i] == a[i] + b[i]
  {
    seq(|a|, i requires 0 <= i < |a| => a[i] + b[i])
  }

  /** A row's product distributes over a sum of vectors. */
  lemma {:induction false} DotAdditive(row: seq<real>, v: seq<real>, w: seq<real>)
    requires |row| == |v| == |w|
    ensures Dot(row, Plus(v, w)) == Dot(row, v) + Dot(row, w)
  {
    var n := |v|;
    if n > 0 {
      DotAdditive(row[..n - 1], v[..n - 1], w[..n - 1]);
      assert Plus(v, w)[..n - 1] == Plus(v[..n - 1], w[..n - 1]);
    }
  }

  /** `np.dot(F, v + w) == np.dot(F, v) + np.dot(F, w)`: filtering is linear. */
  lemma MatVecAdditive(f: seq<seq<real>>, v: seq<real>, w: seq<real>)
    requires |v| == |w| && forall i :: 0 <= i < |f| ==> |f[i]| == |v|
    ensures MatVec(f, Plus(v, w)) == Plus(MatVec(f, v), MatVec(f, w))
  {
    forall i | 0 <= i < |f|
      ensures MatVec(f, Plus(v, w))[i] == Plus(MatVec(f, v), MatVec(f, w))[i]
    {
      DotAdditive(f[i], v, w);
    }
  }

  /** The positions among the first n of s that hold x: all of them, in order. */
  function Positions<T(==)>(s: seq<T>, x: T, n: nat): (r: seq<nat>)
    requires n <= |s|
    ensures forall k :: 0 <= k < |r| ==> r[k] < n && s[r[k]] == x
    ensures forall i, k :: 0 <= i < k < |r| ==> r[i] < r[k]
    ensures forall j :: 0 <= j < n && s[j] == x ==> j in r
  {
    if n == 0 then []
    else
      var prev := Positions(s, x, n - 1);
      if s[n - 1] == x then prev + [n - 1] else prev
  }

  /** n zeros, as `np.zeros(n)`. */
  function Zeros(n: nat): (r: seq<real>)
    ensures |r| == n && forall i :: 0 <= i < n ==> r[i] == 0.0
  {
    seq(n, _ => 0.0)
  }
}
