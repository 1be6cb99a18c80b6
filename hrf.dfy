/**
 * Hemodynamic response models (`IdentityHRF`, `GammaDifferenceHRF`): the
 * kernel post-processing that needs no transcendental function, and the
 * truncated causal convolution with its output column naming. The gamma
 * densities themselves are sampled outside the model and arrive as sequences.
 */
module Hrf {
  import opened Wrappers
  import opened Columns

  /** The sampled kernel: the main channel and, with a temporal derivative, a second one. */
  datatype Kernel = Kernel(main: seq<real>, deriv: Option<seq<real>>)

  datatype HrfModel = IdentityHrf | GammaDifferenceHrf(kernel: Kernel)

  /** A named output column. */
  datatype Column = Column(name: string, values: seq<real>)

  /** Every element multiplied by c. */
  function Scale(y: seq<real>, c: real): (r: seq<real>)
    ensures |r| == |y| && forall i :: 0 <= i < |y| ==> r[i] == c * y[i]
  {
    seq(|y|, i requires 0 <= i < |y| => c * y[i])
  }

  lemma ScalePrefix(y: seq<real>, c: real, n: nat)
    requires n <= |y|
    ensures Scale(y, c)[..n] == Scale(y[..n], c)
  {
    var a, b := Scale(y, c)[..n], Scale(y[..n], c);
    forall i | 0 <= i < n
      ensures a[i] == b[i]
    {
      assert a[i] == c * y[i] && b[i] == c * y[..n][i];
    }
  }

  lemma {:induction false} SumScale(y: seq<real>, c: real)
    ensures Sum(Scale(y, c)) == c * Sum(y)
  {
    if |y| > 0 {
      SumScale(y[..|y| - 1], c);
      ScalePrefix(y, c, |y| - 1);
    }
  }

  function Squares(y: seq<real>): (r: seq<real>)
    ensures |r| == |y| && forall i :: 0 <= i < |y| ==> r[i] == y[i] * y[i]
  {
    seq(|y|, i requires 0 <= i < |y| => y[i] * y[i])
  }

  /** The energy `np.square(y).sum()`. */
  function SumSq(y: seq<real>): real
  {
    Sum(Squares(y))
  }

  lemma SquareOfProduct(c: real, x: real)
    ensures (c * x) * (c * x) == (c * c) * (x * x)
  {
  }

  /** Scaling a channel by c scales its energy by c squared. */
  lemma SumSqScale(y: seq<real>, c: real)
    ensures SumSq(Scale(y, c)) == c * c * SumSq(y)
  {
    SquaresScale(y, c);
    SumScale(Squares(y), c * c);
  }

  /** Squaring a scaled channel scales every square by c squared. */
  lemma SquaresScale(y: seq<real>, c: real)
    ensures Squares(Scale(y, c)) == Scale(Squares(y), c * c)
  {
    var a, b := Squares(Scale(y, c)), Scale(Squares(y), c * c);
    forall i | 0 <= i < |y|
      ensures a[i] == b[i]
    {
      SquareOfProduct(c, y[i]);
    }
  }

  /** `pos_pdf - ratio * neg_pdf`, from the two sampled gamma densities. */
  function GammaDifference(pos: seq<real>, neg: seq<real>, ratio: real): (y: seq<real>)
    requires |pos| == |neg|
    ensures |y| == |pos|
    ensures forall i :: 0 <= i < |pos| ==> y[i] + ratio * neg[i] == pos[i]
  {
    seq(|pos|, i requires 0 <= i < |pos| => pos[i] - ratio * neg[i])
  }

  /** `y /= y.sum()`: the kernel normalised to unit sum. */
  function Normalize(y: seq<real>): (r: seq<real>)
    requires Sum(y) != 0.0
    ensures |r| == |y|
    ensures Sum(r) == 1.0
    ensures forall i :: 0 <= i < |y| ==> r[i] * Sum(y) == y[i]
  {
    var s := Sum(y);
    var r := seq(|y|, i requires 0 <= i < |y| => y[i] / s);
    forall i | 0 <= i < |y|
      ensures r[i] == Scale(y, 1.0 / s)[i]
    {
      assert r[i] == y[i] / s;
    }
    assert r == Scale(y, 1.0 / s);
    SumScale(y, 1.0 / s);
    r
  }

  /** `np.concatenate([[0], np.diff(y)])`. */
  function Diff0(y: seq<real>): (r: seq<real>)
    ensures |r| == if |y| == 0 then 1 else |y|
  {
    [0.0] + seq(if |y| == 0 then 0 else |y| - 1, i requires 0 <= i < |y| - 1 => y[i + 1] - y[i])
  }

  /** The running sum undoes the zero-padded difference, up to the first sample. */
  lemma {:induction false} CumSumOfDiff0(y: seq<real>, i: nat)
    requires i < |y|
    ensures CumSum(Diff0(y))[i] == y[i] - y[0]
  {
    if i == 0 {
      CumSumFirst(Diff0(y));
    } else {
      CumSumOfDiff0(y, i - 1);
      CumSumStep(Diff0(y), i);
    }
  }

  /** The `kernel` property: pos and neg are the two gamma densities sampled at
      the kernel's time points, and `scale` is the energy-matching factor. */
  function MakeKernel(pos: seq<real>, neg: seq<real>, ratio: real, temporalDeriv: bool, scale: real): (k: Kernel)
    requires |pos| == |neg| && Sum(GammaDifference(pos, neg, ratio)) != 0.0
    requires temporalDeriv ==> EnergyScale(GammaDifference(pos, neg, ratio), scale)
    ensures k.main == Normalize(GammaDifference(pos, neg, ratio))
    ensures |k.main| == |pos| && Sum(k.main) == 1.0
    ensures k.deriv.Some? <==> temporalDeriv
    ensures k.deriv.Some? ==> |k.deriv.value| == |k.main| && k.deriv.value[0] == 0.0
    ensures k.deriv.Some? ==> SumSq(k.deriv.value) == SumSq(k.main)
    ensures k.deriv.Some? ==> k.deriv.value == Scale(Diff0(k.main), scale)
  {
    var y := GammaDifference(pos, neg, ratio);
    var k := KernelFrom(y, temporalDeriv, scale);
    assert k.deriv.Some? ==> |k.deriv.value| == |k.main| && k.deriv.value[0] == 0.0;
    k
  }

  /** `np.sqrt(np.square(y).sum() / np.square(dy).sum())` for the normalised y
      and its zero-padded difference dy: the non-negative number whose square
      times the energy of dy is the energy of y. */
  predicate EnergyScale(y: seq<real>, scale: real)
    requires Sum(y) != 0.0
  {
    scale >= 0.0 && scale * scale * SumSq(Diff0(Normalize(y))) == SumSq(Normalize(y))
  }

  /** The kernel built from the sampled gamma difference y. */
  function KernelFrom(y: seq<real>, temporalDeriv: bool, scale: real): (k: Kernel)
    requires Sum(y) != 0.0
    requires temporalDeriv ==> EnergyScale(y, scale)
    ensures k.main == Normalize(y)
    ensures k.deriv.Some? <==> temporalDeriv
    ensures k.deriv.Some? ==> k.deriv.value == Scale(Diff0(k.main), scale)
    ensures k.deriv.Some? ==> SumSq(k.deriv.value) == SumSq(k.main)
  {
    var main := Normalize(y);
    if temporalDeriv then
      SumSqScale(Diff0(main), scale);
      Kernel(main, Some(Scale(Diff0(main), scale)))
    else
      Kernel(main, None)
  }

  /** The scaled derivative channel integrates back to the scaled main channel. */
  lemma DerivIntegrates(main: seq<real>, scale: real)
    requires |main| > 0
    ensures forall i :: 0 <= i < |main| ==>
              CumSum(Scale(Diff0(main), scale))[i] == scale * (main[i] - main[0])
  {
    forall i | 0 <= i < |main|
      ensures CumSum(Scale(Diff0(main), scale))[i] == scale * (main[i] - main[0])
    {
      CumSumOfDiff0(main, i);
      CumSumScale(Diff0(main), scale, i);
    }
  }

  lemma CumSumScale(y: seq<real>, c: real, i: nat)
    requires i < |y|
    ensures CumSum(Scale(y, c))[i] == c * CumSum(y)[i]
  {
    ScalePrefix(y, c, i + 1);
    SumScale(y[..i + 1], c);
  }

  /** The kernel sample at lag m, zero outside the kernel. */
  function KernelAt(v: seq<real>, m: int): real
  {
    if 0 <= m < |v| then v[m] else 0.0
  }

  /** The sum over the first n data samples j of data[j] * kernel[i - j]. */
  function ConvAt(a: seq<real>, v: seq<real>, i: int, n: nat): real
    requires n <= |a|
  {
    if n == 0 then 0.0 else ConvAt(a, v, i, n - 1) + a[n - 1] * KernelAt(v, i - (n - 1))
  }

  /** `np.convolve(a, v)` in its default "full" mode. */
  function FullConvolve(a: seq<real>, v: seq<real>): (r: seq<real>)
    requires |a| > 0 && |v| > 0
    ensures |r| == |a| + |v| - 1
  {
    seq(|a| + |v| - 1, i requires 0 <= i < |a| + |v| - 1 => ConvAt(a, v, i, |a|))
  }

  /** `np.convolve(data, kernel)[:ntp]`. */
  function Truncated(a: seq<real>, v: seq<real>): (r: seq<real>)
    requires |a| > 0 && |v| > 0
    ensures |r| == |a|
  {
    FullConvolve(a, v)[..|a|]
  }

  /** Data samples after i never reach output sample i. */
  lemma {:induction false} ConvAtCausal(a: seq<real>, v: seq<real>, i: nat, n: nat)
    requires i < n <= |a|
    ensures ConvAt(a, v, i, n) == ConvAt(a, v, i, i + 1)
  {
    if n > i + 1 {
      ConvAtCausal(a, v, i, n - 1);
    }
  }

  /** The truncated convolution is the causal prefix of the full one:
      output i is the sum over j <= i of data[j] * kernel[i - j]. */
  lemma TruncatedIsCausal(a: seq<real>, v: seq<real>, i: nat)
    requires |a| > 0 && |v| > 0 && i < |a|
    ensures Truncated(a, v)[i] == ConvAt(a, v, i, i + 1)
  {
    ConvAtCausal(a, v, i, |a|);
  }

  lemma {:induction false} ConvAtSamePrefix(a: seq<real>, b: seq<real>, v: seq<real>, i: int, n: nat)
    requires n <= |a| && n <= |b| && a[..n] == b[..n]
    ensures ConvAt(a, v, i, n) == ConvAt(b, v, i, n)
  {
    if n > 0 {
      assert a[n - 1] == a[..n][n - 1];
      assert a[..n - 1] == a[..n][..n - 1];
      assert b[..n - 1] == b[..n][..n - 1];
      ConvAtSamePrefix(a, b, v, i, n - 1);
    }
  }

  /** Two timecourses that agree up to sample i convolve to the same value at i. */
  lemma Causality(a: seq<real>, b: seq<real>, v: seq<real>, i: nat)
    requires |v| > 0 && i < |a| && i < |b| && a[..i + 1] == b[..i + 1]
    ensures Truncated(a, v)[i] == Truncated(b, v)[i]
  {
    TruncatedIsCausal(a, v, i);
    TruncatedIsCausal(b, v, i);
    ConvAtSamePrefix(a, b, v, i, i + 1);
  }

  lemma {:induction false} ConvAtImpulse(a: seq<real>, v: seq<real>, i: int, n: nat)
    requires 0 < n <= |a| && a[0] == 1.0
    requires forall j :: 0 < j < |a| ==> a[j] == 0.0
    ensures ConvAt(a, v, i, n) == KernelAt(v, i)
  {
    if n > 1 {
      ConvAtImpulse(a, v, i, n - 1);
    }
  }

  /** A unit impulse at the first sample convolves to the kernel itself,
      cut to the length of the data and zero past the kernel's end. */
  lemma ImpulseResponse(a: seq<real>, v: seq<real>, i: nat)
    requires |a| > 0 && |v| > 0 && i < |a|
    requires a[0] == 1.0 && forall j :: 0 < j < |a| ==> a[j] == 0.0
    ensures Truncated(a, v)[i] == KernelAt(v, i)
  {
    ConvAtImpulse(a, v, i, |a|);
  }

  lemma {:induction false} ConvAtUnitKernel(a: seq<real>, i: int, n: nat)
    requires n <= |a|
    ensures ConvAt(a, [1.0], i, n) == if 0 <= i < n then a[i] else 0.0
  {
    if n > 0 {
      ConvAtUnitKernel(a, i, n - 1);
    }
  }

  /** A single-sample unit kernel leaves the data unchanged, as `IdentityHRF` does. */
  lemma UnitKernelIsIdentity(a: seq<real>)
    requires |a| > 0
    ensures Truncated(a, [1.0]) == a
  {
    forall i | 0 <= i < |a|
      ensures Truncated(a, [1.0])[i] == a[i]
    {
      ConvAtUnitKernel(a, i, |a|);
    }
  }

  lemma {:induction false} ConvAtAdditive(a: seq<real>, b: seq<real>, v: seq<real>, i: int, n: nat)
    requires |a| == |b| && n <= |a|
    ensures ConvAt(Plus(a, b), v, i, n) == ConvAt(a, v, i, n) + ConvAt(b, v, i, n)
  {
    if n > 0 {
      ConvAtAdditive(a, b, v, i, n - 1);
    }
  }

  /** Convolution is additive: the response to two summed timecourses is the
      sum of their responses. */
  lemma ConvolutionAdditive(a: seq<real>, b: seq<real>, v: seq<real>, i: nat)
    requires |a| == |b| && |a| > 0 && |v| > 0 && i < |a|
    ensures Truncated(Plus(a, b), v)[i] == Truncated(a, v)[i] + Truncated(b, v)[i]
  {
    ConvAtAdditive(a, b, v, i, |a|);
  }

  /** The output name of `GammaDifferenceHRF.convolve`: the given name, else the
      Series' own name, else "event". */
  function OutputName(name: Option<string>, seriesName: Option<string>): (r: string)
    ensures name.Some? ==> r == name.value
    ensures name.None? && seriesName.Some? ==> r == seriesName.value
    ensures name.None? && seriesName.None? ==> r == "event"
  {
    match name
    case Some(n) => n
    case None => seriesName.GetOr("event")
  }

  /** `GammaDifferenceHRF.convolve`: one column per kernel channel, named
      `name` and `name + "_deriv"`; numpy refuses an empty input. */
  function ConvolveGamma(k: Kernel, data: seq<real>, name: Option<string>, seriesName: Option<string>)
    : (r: Result<seq<Column>>)
    ensures r.Ok? <==> |data| > 0 && |k.main| > 0 && (k.deriv.Some? ==> |k.deriv.value| > 0)
    ensures r.Ok? ==> |r.value| == (if k.deriv.Some? then 2 else 1)
    ensures r.Ok? ==>
              r.value[0].name == OutputName(name, seriesName) && r.value[0].values == Truncated(data, k.main)
    ensures r.Ok? && k.deriv.Some? ==>
              r.value[1].name == OutputName(name, seriesName) + "_deriv"
              && r.value[1].values == Truncated(data, k.deriv.value)
  {
    var n := OutputName(name, seriesName);
    if |data| == 0 then Err("a cannot be empty")
    else if |k.main| == 0 then Err("v cannot be empty")
    else match k.deriv
      case None => Ok([Column(n, Truncated(data, k.main))])
      case Some(d) =>
        if |d| == 0 then Err("v cannot be empty")
        else Ok([Column(n, Truncated(data, k.main)), Column(n + "_deriv", Truncated(data, d))])
  }

  /** Whether numpy accepts every kernel channel (none is empty). */
  predicate Usable(k: Kernel)
  {
    |k.main| > 0 && (k.deriv.Some? ==> |k.deriv.value| > 0)
  }

  predicate HasDeriv(model: HrfModel)
  {
    model.GammaDifferenceHrf? && model.kernel.deriv.Some?
  }

  /** `hrf_model.convolve(data, frametimes, name)` for either model. */
  function Convolve(model: HrfModel, data: seq<real>, name: string): (r: Result<seq<Column>>)
    ensures r.Ok? <==> model.IdentityHrf? || (|data| > 0 && Usable(model.kernel))
    ensures r.Ok? ==> |r.value| == (if HasDeriv(model) then 2 else 1) && r.value[0].name == name
    ensures r.Ok? ==> forall i :: 0 <= i < |r.value| ==> |r.value[i].values| == |data|
    ensures model.IdentityHrf? ==> r == Ok([Column(name, data)])
    ensures r.Ok? && |r.value| == 2 ==> r.value[1].name == name + "_deriv"
  {
    match model
    case IdentityHrf => Ok([Column(name, data)])
    case GammaDifferenceHrf(k) => ConvolveGamma(k, data, Some(name), None)
  }
}
