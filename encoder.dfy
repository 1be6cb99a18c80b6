/**
 * The hires event encoder of `DesignMatrix._make_hires_ev_base`: a list of
 * (onset, duration, value) events of one condition becomes a step-function
 * timecourse on the oversampled frame grid, by writing +value at each onset
 * sample and -value at each offset sample and taking a running sum.
 *
 * The two writes `ev[t_onset] += vals` and `ev[t_offset] -= vals` use numpy's
 * fancy-index semantics: every right-hand side reads the array as it was
 * before the statement, and when two events share an index only the last
 * write lands. `FancyAdd` models exactly that.
 */
module EventEncoder {
  import opened Columns

  datatype Event = Event(onset: real, duration: real, value: real)

  predicate StrictlyIncreasing(grid: seq<real>)
  {
    forall i, j :: 0 <= i < j < |grid| ==> grid[i] < grid[j]
  }

  predicate Distinct(idx: seq<nat>)
  {
    forall i, j :: 0 <= i < j < |idx| ==> idx[i] != idx[j]
  }

  /** `np.searchsorted(grid, v)`: the left insertion point of v. */
  function SearchSorted(grid: seq<real>, v: real): (r: nat)
    ensures r <= |grid|
    ensures forall i :: 0 <= i < r ==> grid[i] < v
    ensures r < |grid| ==> v <= grid[r]
  {
    if |grid| == 0 || v <= grid[0] then 0 else 1 + SearchSorted(grid[1..], v)
  }

  /** On an increasing grid the insertion point splits the grid into the
      elements below v and those at or above it. */
  lemma SearchSortedSplits(grid: seq<real>, v: real)
    requires StrictlyIncreasing(grid)
    ensures forall i :: 0 <= i < |grid| ==> (grid[i] < v <==> i < SearchSorted(grid, v))
  {
    var r := SearchSorted(grid, v);
    forall i | r < i < |grid|
      ensures v <= grid[i]
    {
      assert grid[r] < grid[i];
    }
  }

  /** A later time never has an earlier insertion point. */
  lemma SearchSortedMonotone(grid: seq<real>, v: real, w: real)
    requires v <= w
    ensures SearchSorted(grid, v) <= SearchSorted(grid, w)
  {
  }

  /** `np.minimum(i, tmax - 1)`. */
  function ClampIndex(i: nat, tmax: nat): (r: nat)
    requires tmax > 0
    ensures r < tmax && r <= i
    ensures i < tmax ==> r == i
    ensures i >= tmax - 1 ==> r == tmax - 1
  {
    if i < tmax - 1 then i else tmax - 1
  }

  /** `t_onset`: the clamped insertion points of the onsets. */
  function OnsetIndices(grid: seq<real>, evs: seq<Event>): (on: seq<nat>)
    requires |grid| > 0
    ensures |on| == |evs|
    ensures forall i :: 0 <= i < |evs| ==> on[i] < |grid|
  {
    seq(|evs|, i requires 0 <= i < |evs| => ClampIndex(SearchSorted(grid, evs[i].onset), |grid|))
  }

  /** `t_offset` before the zero-duration fix-up. */
  function RawOffsetIndices(grid: seq<real>, evs: seq<Event>): (off: seq<nat>)
    requires |grid| > 0
    ensures |off| == |evs|
    ensures forall i :: 0 <= i < |evs| ==> off[i] < |grid|
  {
    seq(|evs|, i requires 0 <= i < |evs| =>
      ClampIndex(SearchSorted(grid, evs[i].onset + evs[i].duration), |grid|))
  }

  /** The offsets after the zero-duration fix-up loop: an offset that equals its
      onset moves one sample later unless it is already the last sample. */
  function FixedOffsets(on: seq<nat>, off: seq<nat>, tmax: nat): (r: seq<nat>)
    requires |on| == |off|
    requires forall i :: 0 <= i < |off| ==> off[i] < tmax
    ensures |r| == |off|
    ensures forall i :: 0 <= i < |off| ==> off[i] <= r[i] < tmax && r[i] <= off[i] + 1
    ensures forall i :: 0 <= i < |off| ==> r[i] == on[i] ==> r[i] == tmax - 1
    ensures forall i :: 0 <= i < |off| ==> off[i] != on[i] ==> r[i] == off[i]
  {
    seq(|off|, i requires 0 <= i < |off| =>
      if off[i] < tmax - 1 && off[i] == on[i] then off[i] + 1 else off[i])
  }

  /** The final `t_offset` that the encoder subtracts at. */
  function OffsetIndices(grid: seq<real>, evs: seq<Event>): (off: seq<nat>)
    requires |grid| > 0
    ensures |off| == |evs|
    ensures forall i :: 0 <= i < |evs| ==> off[i] < |grid|
  {
    FixedOffsets(OnsetIndices(grid, evs), RawOffsetIndices(grid, evs), |grid|)
  }

  /** An event with a non-negative duration never ends before it starts. */
  lemma OnsetBeforeOffset(grid: seq<real>, evs: seq<Event>, i: nat)
    requires |grid| > 0 && i < |evs|
    requires evs[i].duration >= 0.0
    ensures OnsetIndices(grid, evs)[i] <= OffsetIndices(grid, evs)[i]
  {
    SearchSortedMonotone(grid, evs[i].onset, evs[i].onset + evs[i].duration);
  }

  function Values(evs: seq<Event>): (vals: seq<real>)
    ensures |vals| == |evs| && forall i :: 0 <= i < |evs| ==> vals[i] == evs[i].value
  {
    seq(|evs|, i requires 0 <= i < |evs| => evs[i].value)
  }

  function Negated(vals: seq<real>): (r: seq<real>)
    ensures |r| == |vals| && forall i :: 0 <= i < |vals| ==> r[i] == -vals[i]
  {
    seq(|vals|, i requires 0 <= i < |vals| => -vals[i])
  }

  /** The first n writes of the fancy-indexed statement `a[idx] += d`: every
      write reads `base`, the array as it was before the statement. */
  function FancyAdd(base: seq<real>, idx: seq<nat>, d: seq<real>, n: nat): (r: seq<real>)
    requires n <= |idx| && n <= |d|
    requires forall i :: 0 <= i < n ==> idx[i] < |base|
    ensures |r| == |base|
  {
    if n == 0 then base
    else FancyAdd(base, idx, d, n - 1)[idx[n - 1] := base[idx[n - 1]] + d[n - 1]]
  }

  /** The increment that lands at index k: that of the LAST of the first n writes aimed at k. */
  function LastHit(idx: seq<nat>, d: seq<real>, n: nat, k: nat): real
    requires n <= |idx| && n <= |d|
  {
    if n == 0 then 0.0
    else if idx[n - 1] == k then d[n - 1]
    else LastHit(idx, d, n - 1, k)
  }

  /** The sum of the increments of the first n writes aimed at k (`np.add.at` semantics). */
  function Hits(idx: seq<nat>, d: seq<real>, n: nat, k: nat): real
    requires n <= |idx| && n <= |d|
  {
    if n == 0 then 0.0
    else Hits(idx, d, n - 1, k) + (if idx[n - 1] == k then d[n - 1] else 0.0)
  }

  /** The sum of the increments of the first n writes aimed at or before k. */
  function UpTo(idx: seq<nat>, d: seq<real>, n: nat, k: nat): real
    requires n <= |idx| && n <= |d|
  {
    if n == 0 then 0.0
    else UpTo(idx, d, n - 1, k) + (if idx[n - 1] <= k then d[n - 1] else 0.0)
  }

  /** Fancy-indexed addition leaves each element plus the last increment aimed at it. */
  lemma {:induction false} FancyAddAt(base: seq<real>, idx: seq<nat>, d: seq<real>, n: nat, k: nat)
    requires n <= |idx| && n <= |d|
    requires forall i :: 0 <= i < n ==> idx[i] < |base|
    requires k < |base|
    ensures FancyAdd(base, idx, d, n)[k] == base[k] + LastHit(idx, d, n, k)
  {
    if n > 0 {
      FancyAddAt(base, idx, d, n - 1, k);
    }
  }

  lemma {:induction false} HitsMissed(idx: seq<nat>, d: seq<real>, n: nat, k: nat)
    requires n <= |idx| && n <= |d|
    requires forall i :: 0 <= i < n ==> idx[i] != k
    ensures Hits(idx, d, n, k) == 0.0 && LastHit(idx, d, n, k) == 0.0
  {
    if n > 0 {
      HitsMissed(idx, d, n - 1, k);
    }
  }

  /** With pairwise distinct indices no write is lost: last-write-wins equals accumulation. */
  lemma {:induction false} LastHitDistinct(idx: seq<nat>, d: seq<real>, n: nat, k: nat)
    requires n <= |idx| && n <= |d|
    requires Distinct(idx)
    ensures LastHit(idx, d, n, k) == Hits(idx, d, n, k)
  {
    if n > 0 {
      if idx[n - 1] == k {
        HitsMissed(idx, d, n - 1, k);
      } else {
        LastHitDistinct(idx, d, n - 1, k);
      }
    }
  }

  lemma {:induction false} HitsNegated(idx: seq<nat>, d: seq<real>, n: nat, k: nat)
    requires n <= |idx| && n <= |d|
    ensures Hits(idx, Negated(d), n, k) == -Hits(idx, d, n, k)
  {
    if n > 0 {
      HitsNegated(idx, d, n - 1, k);
    }
  }

  lemma {:induction false} UpToZero(idx: seq<nat>, d: seq<real>, n: nat)
    requires n <= |idx| && n <= |d|
    ensures UpTo(idx, d, n, 0) == Hits(idx, d, n, 0)
  {
    if n > 0 {
      UpToZero(idx, d, n - 1);
    }
  }

  lemma {:induction false} UpToStep(idx: seq<nat>, d: seq<real>, n: nat, k: nat)
    requires n <= |idx| && n <= |d| && k > 0
    ensures UpTo(idx, d, n, k) == UpTo(idx, d, n, k - 1) + Hits(idx, d, n, k)
  {
    if n > 0 {
      UpToStep(idx, d, n - 1, k);
    }
  }

  /** The running sum of "increments at p minus increments at q" is, at k, the
      increments aimed at or before k at p minus those at q. */
  lemma {:induction false} CumSumOfHits(dl: seq<real>, p: seq<nat>, pv: seq<real>, np: nat,
                                        q: seq<nat>, qv: seq<real>, nq: nat, k: nat)
    requires np <= |p| && np <= |pv| && nq <= |q| && nq <= |qv|
    requires k < |dl|
    requires forall j :: 0 <= j < |dl| ==> dl[j] == Hits(p, pv, np, j) - Hits(q, qv, nq, j)
    ensures CumSum(dl)[k] == UpTo(p, pv, np, k) - UpTo(q, qv, nq, k)
  {
    if k == 0 {
      CumSumFirst(dl);
      UpToZero(p, pv, np);
      UpToZero(q, qv, nq);
    } else {
      CumSumOfHits(dl, p, pv, np, q, qv, nq, k - 1);
      CumSumStep(dl, k);
      UpToStep(p, pv, np, k);
      UpToStep(q, qv, nq, k);
    }
  }

  /** The specification of the encoder: the running sum of the array after both
      fancy-indexed writes. */
  function HiresEv(grid: seq<real>, evs: seq<Event>): (ev: seq<real>)
    requires |grid| > 0
    ensures |ev| == |grid|
  {
    var vals := Values(evs);
    var afterOnsets := FancyAdd(Zeros(|grid|), OnsetIndices(grid, evs), vals, |evs|);
    CumSum(FancyAdd(afterOnsets, OffsetIndices(grid, evs), Negated(vals), |evs|))
  }

  /** The boxcar an event with onset index a, offset index b and value v adds at
      sample k: v on [a, b), -v on [b, a), zero elsewhere. */
  function Boxcar(a: nat, b: nat, v: real, k: nat): (r: real)
    ensures a <= k < b ==> r == v
    ensures b <= k < a ==> r == -v
    ensures (k < a && k < b) || (a <= k && b <= k) ==> r == 0.0
  {
    (if a <= k then v else 0.0) - (if b <= k then v else 0.0)
  }

  /** The sum of the first n events' boxcars at sample k. */
  function BoxSum(on: seq<nat>, off: seq<nat>, vals: seq<real>, n: nat, k: nat): real
    requires n <= |on| && n <= |off| && n <= |vals|
  {
    if n == 0 then 0.0 else BoxSum(on, off, vals, n - 1, k) + Boxcar(on[n - 1], off[n - 1], vals[n - 1], k)
  }

  lemma {:induction false} BoxSumUpTo(on: seq<nat>, off: seq<nat>, vals: seq<real>, n: nat, k: nat)
    requires n <= |on| && n <= |off| && n <= |vals|
    ensures BoxSum(on, off, vals, n, k) == UpTo(on, vals, n, k) - UpTo(off, vals, n, k)
  {
    if n > 0 {
      BoxSumUpTo(on, off, vals, n - 1, k);
    }
  }

  /** Each array element after both writes, in terms of the last write aimed at it. */
  lemma DeltasAt(grid: seq<real>, evs: seq<Event>, j: nat)
    requires |grid| > 0 && j < |grid|
    ensures
      var vals := Values(evs);
      var on := OnsetIndices(grid, evs);
      var off := OffsetIndices(grid, evs);
      FancyAdd(FancyAdd(Zeros(|grid|), on, vals, |evs|), off, Negated(vals), |evs|)[j]
        == LastHit(on, vals, |evs|, j) + LastHit(off, Negated(vals), |evs|, j)
  {
    var vals := Values(evs);
    var on := OnsetIndices(grid, evs);
    var off := OffsetIndices(grid, evs);
    var mid := FancyAdd(Zeros(|grid|), on, vals, |evs|);
    FancyAddAt(Zeros(|grid|), on, vals, |evs|, j);
    FancyAddAt(mid, off, Negated(vals), |evs|, j);
  }

  /** When no two events share an onset sample and no two share an offset
      sample, the encoded timecourse is the sum of the events' boxcars. */
  lemma Superposition(grid: seq<real>, evs: seq<Event>, k: nat)
    requires |grid| > 0 && k < |grid|
    requires Distinct(OnsetIndices(grid, evs)) && Distinct(OffsetIndices(grid, evs))
    ensures HiresEv(grid, evs)[k]
         == BoxSum(OnsetIndices(grid, evs), OffsetIndices(grid, evs), Values(evs), |evs|, k)
  {
    var vals := Values(evs);
    var on := OnsetIndices(grid, evs);
    var off := OffsetIndices(grid, evs);
    var n := |evs|;
    var dl := FancyAdd(FancyAdd(Zeros(|grid|), on, vals, n), off, Negated(vals), n);
    forall j | 0 <= j < |dl|
      ensures dl[j] == Hits(on, vals, n, j) - Hits(off, vals, n, j)
    {
      DeltasAt(grid, evs, j);
      LastHitDistinct(on, vals, n, j);
      LastHitDistinct(off, Negated(vals), n, j);
      HitsNegated(off, vals, n, j);
    }
    CumSumOfHits(dl, on, vals, n, off, vals, n, k);
    BoxSumUpTo(on, off, vals, n, k);
  }

  /** A single event encodes to its own boxcar. */
  lemma SingleEvent(grid: seq<real>, e: Event, k: nat)
    requires |grid| > 0 && k < |grid|
    ensures HiresEv(grid, [e])[k]
         == Boxcar(OnsetIndices(grid, [e])[0], OffsetIndices(grid, [e])[0], e.value, k)
  {
    Superposition(grid, [e], k);
  }

  /** A single event whose onset sample a precedes its offset sample b encodes
      to `value` on samples a..b-1 and to zero everywhere else, after b included. */
  lemma SingleEventBoxcar(grid: seq<real>, e: Event, k: nat)
    requires |grid| > 0 && k < |grid|
    requires OnsetIndices(grid, [e])[0] < OffsetIndices(grid, [e])[0]
    ensures var a, b := OnsetIndices(grid, [e])[0], OffsetIndices(grid, [e])[0];
            HiresEv(grid, [e])[k] == if a <= k < b then e.value else 0.0
  {
    SingleEvent(grid, e, k);
  }

  /** A zero-duration event before the last sample is a one-sample impulse at its onset. */
  lemma ZeroDurationImpulse(grid: seq<real>, e: Event, k: nat)
    requires |grid| > 0 && k < |grid|
    requires e.duration == 0.0
    requires SearchSorted(grid, e.onset) < |grid| - 1
    ensures HiresEv(grid, [e])[k] == if k == SearchSorted(grid, e.onset) then e.value else 0.0
  {
    var a := SearchSorted(grid, e.onset);
    assert e.onset + e.duration == e.onset;
    assert OnsetIndices(grid, [e])[0] == a;
    assert RawOffsetIndices(grid, [e])[0] == a;
    assert OffsetIndices(grid, [e])[0] == a + 1;
    SingleEvent(grid, e, k);
  }

  /** An event that starts at or after the last grid sample, with a non-negative
      duration, contributes nothing: its +value and -value cancel there. */
  lemma LastSampleEventVanishes(grid: seq<real>, e: Event, k: nat)
    requires |grid| > 0 && k < |grid|
    requires |grid| - 1 <= SearchSorted(grid, e.onset)
    requires e.duration >= 0.0
    ensures HiresEv(grid, [e])[k] == 0.0
  {
    OnsetBeforeOffset(grid, [e], 0);
    SingleEvent(grid, e, k);
  }

  /** Two different indices are distinct. */
  lemma PairDistinct(idx: seq<nat>)
    requires |idx| == 2 && idx[0] != idx[1]
    ensures Distinct(idx)
  {
  }

  /** Two events' boxcars, added up. */
  lemma TwoBoxes(on: seq<nat>, off: seq<nat>, vals: seq<real>, k: nat)
    requires |on| == |off| == |vals| == 2
    ensures BoxSum(on, off, vals, 2, k) == Boxcar(on[0], off[0], vals[0], k) + Boxcar(on[1], off[1], vals[1], k)
  {
    assert BoxSum(on, off, vals, 1, k) == Boxcar(on[0], off[0], vals[0], k);
  }

  /** Between two events separated by a gap the timecourse is back at exactly zero. */
  lemma GapReturnsToZero(grid: seq<real>, e1: Event, e2: Event, k: nat)
    requires |grid| > 0 && k < |grid|
    requires e1.duration >= 0.0 && e2.duration >= 0.0
    requires OffsetIndices(grid, [e1, e2])[0] <= k < OnsetIndices(grid, [e1, e2])[1]
    ensures HiresEv(grid, [e1, e2])[k] == 0.0
  {
    var evs := [e1, e2];
    var on, off := OnsetIndices(grid, evs), OffsetIndices(grid, evs);
    OnsetBeforeOffset(grid, evs, 0);
    OnsetBeforeOffset(grid, evs, 1);
    PairDistinct(on);
    PairDistinct(off);
    Superposition(grid, evs, k);
    TwoBoxes(on, off, Values(evs), k);
  }

  /** The array after both writes, for two events sharing their onset sample. */
  lemma SharedOnsetDeltas(grid: seq<real>, e1: Event, e2: Event, j: nat)
    requires |grid| > 0 && j < |grid|
    requires OnsetIndices(grid, [e1, e2])[0] == OnsetIndices(grid, [e1, e2])[1]
    requires OffsetIndices(grid, [e1, e2])[0] != OffsetIndices(grid, [e1, e2])[1]
    ensures
      var evs := [e1, e2];
      var vals := Values(evs);
      var on, off := OnsetIndices(grid, evs), OffsetIndices(grid, evs);
      FancyAdd(FancyAdd(Zeros(|grid|), on, vals, 2), off, Negated(vals), 2)[j]
        == Hits([on[1]], [e2.value], 1, j) - Hits(off, vals, 2, j)
  {
    var evs := [e1, e2];
    var vals := Values(evs);
    var on, off := OnsetIndices(grid, evs), OffsetIndices(grid, evs);
    DeltasAt(grid, evs, j);
    assert LastHit(on, vals, 1, j) == if on[0] == j then vals[0] else 0.0;
    assert LastHit(on, vals, 2, j) == if on[1] == j then vals[1] else LastHit(on, vals, 1, j);
    assert Hits([on[1]], [e2.value], 1, j) == if on[1] == j then e2.value else 0.0;
    PairDistinct(off);
    LastHitDistinct(off, Negated(vals), 2, j);
    HitsNegated(off, vals, 2, j);
  }

  /** Two events that share their onset sample but end at different samples do
      not add up: only the second +value lands at the onset while both -values
      land, so from both offsets on the timecourse stays at -value of the first. */
  lemma SharedOnsetLeavesNegativeTail(grid: seq<real>, e1: Event, e2: Event, k: nat)
    requires |grid| > 0 && k < |grid|
    requires OnsetIndices(grid, [e1, e2])[0] == OnsetIndices(grid, [e1, e2])[1]
    requires OffsetIndices(grid, [e1, e2])[0] != OffsetIndices(grid, [e1, e2])[1]
    requires OnsetIndices(grid, [e1, e2])[0] <= k
    requires OffsetIndices(grid, [e1, e2])[0] <= k && OffsetIndices(grid, [e1, e2])[1] <= k
    ensures HiresEv(grid, [e1, e2])[k] == -e1.value
  {
    var evs := [e1, e2];
    var vals := Values(evs);
    var on, off := OnsetIndices(grid, evs), OffsetIndices(grid, evs);
    var dl := FancyAdd(FancyAdd(Zeros(|grid|), on, vals, 2), off, Negated(vals), 2);
    var p, pv := [on[1]], [e2.value];
    forall j | 0 <= j < |dl|
      ensures dl[j] == Hits(p, pv, 1, j) - Hits(off, vals, 2, j)
    {
      SharedOnsetDeltas(grid, e1, e2, j);
    }
    CumSumOfHits(dl, p, pv, 1, off, vals, 2, k);
    assert UpTo(p, pv, 1, k) == e2.value;
    assert UpTo(off, vals, 1, k) == vals[0];
    assert UpTo(off, vals, 2, k) == vals[0] + vals[1];
  }

  /** `for i, off in enumerate(t_offset)`: the zero-duration fix-up, in place. */
  method FixZeroDurations(tOffset: array<nat>, tOnset: seq<nat>, tmax: nat)
    requires |tOnset| == tOffset.Length
    requires forall i :: 0 <= i < tOffset.Length ==> tOffset[i] < tmax
    modifies tOffset
    ensures tOffset[..] == FixedOffsets(tOnset, old(tOffset[..]), tmax)
  {
    ghost var before := tOffset[..];
    for i := 0 to tOffset.Length
      invariant forall j :: 0 <= j < i ==> tOffset[j] == FixedOffsets(tOnset, before, tmax)[j]
      invariant forall j :: i <= j < tOffset.Length ==> tOffset[j] == before[j]
    {
      var off := tOffset[i];
      if off < tmax - 1 && off == tOnset[i] {
        tOffset[i] := off + 1;
      }
    }
  }

  /** One fancy-indexed statement `a[idx] += d`, in place. */
  method ScatterAdd(a: array<real>, idx: seq<nat>, d: seq<real>)
    requires |idx| == |d|
    requires forall i :: 0 <= i < |idx| ==> idx[i] < a.Length
    modifies a
    ensures a[..] == FancyAdd(old(a[..]), idx, d, |idx|)
  {
    var before := a[..];
    for i := 0 to |idx|
      invariant a[..] == FancyAdd(before, idx, d, i)
    {
      a[idx[i]] := before[idx[i]] + d[i];
    }
  }

  /** `_make_hires_ev_base`: the encoded timecourse of one condition's events. */
  method MakeHiresEv(grid: seq<real>, evs: seq<Event>) returns (ev: seq<real>)
    requires |grid| > 0
    ensures ev == HiresEv(grid, evs)
  {
    var tmax := |grid|;
    var a := new real[tmax](_ => 0.0);
    assert a[..] == Zeros(tmax);
    var tOnset := OnsetIndices(grid, evs);
    var vals := Values(evs);
    ScatterAdd(a, tOnset, vals);
    var raw := RawOffsetIndices(grid, evs);
    var tOffset := new nat[|evs|](i requires 0 <= i < |evs| => raw[i]);
    assert tOffset[..] == raw;
    FixZeroDurations(tOffset, tOnset, tmax);
    ScatterAdd(a, tOffset[..], Negated(vals));
    ev := CumSum(a[..]);
  }
}
