/**
 * The condition side of `DesignMatrix.__init__`: one hires timecourse per
 * condition (`_make_hires_base`), its convolution with the HRF model
 * (`_convolve`), the subsampling onto the acquisition frames, the demeaning,
 * the peak-to-peak heights and the optional high-pass filter.
 */
module Conditions {
  import opened Wrappers
  import opened Columns
  import E = EventEncoder
  import H = Hrf

  /** The event table: a `condition` and an `onset` column, and optional
      `duration` (default 0) and `value` (default 1) columns. */
  datatype EventTable = EventTable(
    condition: seq<string>, onset: seq<real>,
    duration: Option<seq<real>>, value: Option<seq<real>>)

  predicate WellFormedTable(d: EventTable)
  {
    |d.onset| == |d.condition|
    && (d.duration.Some? ==> |d.duration.value| == |d.condition|)
    && (d.value.Some? ==> |d.value.value| == |d.condition|)
  }

  /** Row i as an event, with the default duration and value filled in. */
  function RowEvent(d: EventTable, i: nat): (e: E.Event)
    requires WellFormedTable(d) && i < |d.condition|
    ensures e.onset == d.onset[i]
    ensures e.duration == if d.duration.Some? then d.duration.value[i] else 0.0
    ensures e.value == if d.value.Some? then d.value.value[i] else 1.0
  {
    E.Event(d.onset[i],
            match d.duration case Some(ds) => ds[i] case None => 0.0,
            match d.value case Some(vs) => vs[i] case None => 1.0)
  }

  /** The rows among the first n whose condition is `cond`, in table order. */
  function EventsUpTo(d: EventTable, cond: string, n: nat): (evs: seq<E.Event>)
    requires WellFormedTable(d) && n <= |d.condition|
    ensures |evs| <= n
  {
    if n == 0 then []
    else EventsUpTo(d, cond, n - 1) + (if d.condition[n - 1] == cond then [RowEvent(d, n - 1)] else [])
  }

  /** The events selected among the first n rows are those of the matching
      rows, one each, in table order. */
  lemma {:induction false} EventsUpToRows(d: EventTable, cond: string, n: nat)
    requires WellFormedTable(d) && n <= |d.condition|
    ensures |EventsUpTo(d, cond, n)| == |Positions(d.condition, cond, n)|
    ensures forall k :: 0 <= k < |EventsUpTo(d, cond, n)| ==>
              EventsUpTo(d, cond, n)[k] == RowEvent(d, Positions(d.condition, cond, n)[k])
  {
    if n > 0 {
      EventsUpToRows(d, cond, n - 1);
      var prev, rows := EventsUpTo(d, cond, n - 1), Positions(d.condition, cond, n - 1);
      if d.condition[n - 1] == cond {
        assert EventsUpTo(d, cond, n) == prev + [RowEvent(d, n - 1)];
        assert Positions(d.condition, cond, n) == rows + [n - 1];
      } else {
        assert EventsUpTo(d, cond, n) == prev;
        assert Positions(d.condition, cond, n) == rows;
      }
    }
  }

  /** `design[design.condition == cond][["onset", "duration", "value"]]`:
      one event per row whose condition is `cond`, in table order. */
  function EventsOf(d: EventTable, cond: string): (evs: seq<E.Event>)
    requires WellFormedTable(d)
    ensures |evs| == |Positions(d.condition, cond, |d.condition|)|
    ensures forall k :: 0 <= k < |evs| ==> evs[k] == RowEvent(d, Positions(d.condition, cond, |d.condition|)[k])
  {
    EventsUpToRows(d, cond, |d.condition|);
    EventsUpTo(d, cond, |d.condition|)
  }

  lemma {:induction false} EventsUpToAbsent(d: EventTable, cond: string, n: nat)
    requires WellFormedTable(d) && n <= |d.condition|
    requires cond !in d.condition
    ensures EventsUpTo(d, cond, n) == []
  {
    if n > 0 {
      EventsUpToAbsent(d, cond, n - 1);
      assert d.condition[n - 1] in d.condition;
    }
  }

  /** A requested condition that has no row in the table gives an all-zero timecourse. */
  lemma AbsentConditionIsSilent(grid: seq<real>, d: EventTable, cond: string, k: nat)
    requires |grid| > 0 && k < |grid| && WellFormedTable(d)
    requires cond !in d.condition
    ensures E.HiresEv(grid, EventsOf(d, cond))[k] == 0.0
  {
    EventsUpToAbsent(d, cond, |d.condition|);
    E.Superposition(grid, [], k);
  }

  /** The hires condition timecourses, one per requested condition. */
  function HiresBase(grid: seq<real>, d: EventTable, condNames: seq<string>): (base: seq<seq<real>>)
    requires |grid| > 0 && WellFormedTable(d)
    ensures |base| == |condNames|
    ensures forall c :: 0 <= c < |condNames| ==> |base[c]| == |grid|
  {
    seq(|condNames|, c requires 0 <= c < |condNames| => E.HiresEv(grid, EventsOf(d, condNames[c])))
  }

  /** `_make_hires_base`: one hires timecourse per requested condition. */
  method MakeHiresBase(grid: seq<real>, d: EventTable, condNames: seq<string>)
    returns (base: seq<seq<real>>)
    requires |grid| > 0 && WellFormedTable(d)
    ensures base == HiresBase(grid, d, condNames)
  {
    base := [];
    for c := 0 to |condNames|
      invariant |base| == c
      invariant forall j :: 0 <= j < c ==> base[j] == E.HiresEv(grid, EventsOf(d, condNames[j]))
    {
      var ev := E.MakeHiresEv(grid, EventsOf(d, condNames[c]));
      base := base + [ev];
    }
  }

  /** The condition names are pairwise different. */
  predicate DistinctNames(names: seq<string>)
  {
    forall i, j :: 0 <= i < j < |names| ==> names[i] != names[j]
  }

  /** No condition is named like the derivative column of another. */
  predicate NoDerivClash(names: seq<string>)
  {
    forall i, j :: 0 <= i < |names| && 0 <= j < |names| ==> names[i] != names[j] + "_deriv"
  }

  /** The derivative column names, one per condition, if the model has a derivative channel. */
  function DerivNames(model: H.HrfModel, condNames: seq<string>): (names: seq<string>)
    ensures |names| == if H.HasDeriv(model) then |condNames| else 0
    ensures forall c :: 0 <= c < |names| ==> names[c] == condNames[c] + "_deriv"
  {
    if H.HasDeriv(model) then seq(|condNames|, c requires 0 <= c < |condNames| => condNames[c] + "_deriv") else []
  }

  /** The column names once `_convolve` has handled the first n conditions: a
      derivative name is appended unless a column of that name already exists. */
  function NamesUpTo(model: H.HrfModel, condNames: seq<string>, n: nat): seq<string>
    requires n <= |condNames|
  {
    if n == 0 then condNames
    else
      var prev := NamesUpTo(model, condNames, n - 1);
      var key := condNames[n - 1] + "_deriv";
      if H.HasDeriv(model) && key !in prev then prev + [key] else prev
  }

  /** The column names after `_convolve`. */
  function ConvolvedNames(model: H.HrfModel, condNames: seq<string>): (names: seq<string>)
    ensures |condNames| <= |names| <= |condNames| + |DerivNames(model, condNames)|
    ensures names[..|condNames|] == condNames
    ensures !H.HasDeriv(model) ==> names == condNames
  {
    NamesUpToBounds(model, condNames, |condNames|);
    NamesUpTo(model, condNames, |condNames|)
  }

  lemma {:induction false} NamesUpToBounds(model: H.HrfModel, condNames: seq<string>, n: nat)
    requires n <= |condNames|
    ensures |condNames| <= |NamesUpTo(model, condNames, n)| <= |condNames| + (if H.HasDeriv(model) then n else 0)
    ensures NamesUpTo(model, condNames, n)[..|condNames|] == condNames
    ensures !H.HasDeriv(model) ==> NamesUpTo(model, condNames, n) == condNames
  {
    if n > 0 {
      NamesUpToBounds(model, condNames, n - 1);
      var prev := NamesUpTo(model, condNames, n - 1);
      assert (prev + [condNames[n - 1] + "_deriv"])[..|condNames|] == prev[..|condNames|];
    }
  }

  /** Every derivative name is among the columns. */
  lemma {:induction false} NamesUpToHasDerivs(model: H.HrfModel, condNames: seq<string>, n: nat)
    requires n <= |condNames| && H.HasDeriv(model)
    ensures forall c :: 0 <= c < n ==> condNames[c] + "_deriv" in NamesUpTo(model, condNames, n)
  {
    if n > 0 {
      NamesUpToHasDerivs(model, condNames, n - 1);
      var prev := NamesUpTo(model, condNames, n - 1);
      assert forall x :: x in prev ==> x in NamesUpTo(model, condNames, n);
    }
  }

  /** Every column past the conditions is the derivative name of one of them. */
  lemma {:induction false} NamesUpToExtra(model: H.HrfModel, condNames: seq<string>, n: nat)
    requires n <= |condNames|
    ensures forall i :: |condNames| <= i < |NamesUpTo(model, condNames, n)| ==>
              exists c :: 0 <= c < n && NamesUpTo(model, condNames, n)[i] == condNames[c] + "_deriv"
  {
    NamesUpToBounds(model, condNames, n);
    if n > 0 {
      NamesUpToExtra(model, condNames, n - 1);
      NamesUpToBounds(model, condNames, n - 1);
      var prev := NamesUpTo(model, condNames, n - 1);
      var names := NamesUpTo(model, condNames, n);
      assert names == prev || names == prev + [condNames[n - 1] + "_deriv"];
      forall i | |condNames| <= i < |names|
        ensures exists c :: 0 <= c < n && names[i] == condNames[c] + "_deriv"
      {
        if i < |prev| {
          var c :| 0 <= c < n - 1 && prev[i] == condNames[c] + "_deriv";
          assert names[i] == prev[i];
        } else {
          assert names[i] == condNames[n - 1] + "_deriv";
        }
      }
    }
  }

  /** Distinct condition names give distinct column names. */
  lemma {:induction false} NamesUpToDistinct(model: H.HrfModel, condNames: seq<string>, n: nat)
    requires n <= |condNames| && DistinctNames(condNames)
    ensures DistinctNames(NamesUpTo(model, condNames, n))
  {
    if n > 0 {
      NamesUpToDistinct(model, condNames, n - 1);
      var prev := NamesUpTo(model, condNames, n - 1);
      var key := condNames[n - 1] + "_deriv";
      if H.HasDeriv(model) && key !in prev {
        var names := prev + [key];
        forall i, j | 0 <= i < j < |names|
          ensures names[i] != names[j]
        {
          if j == |prev| {
            assert names[i] == prev[i];
          }
        }
      }
    }
  }

  /** Two names with the same derivative name are the same name. */
  lemma DerivNameInjective(a: string, b: string)
    requires a + "_deriv" == b + "_deriv"
    ensures a == b
  {
    assert a == (a + "_deriv")[..|a|];
    assert b == (b + "_deriv")[..|b|];
  }

  /** Without a name clash, the derivative name of condition m is neither a
      condition nor an earlier derivative name. */
  lemma NotYetNamed(condNames: seq<string>, dn: seq<string>, m: nat)
    requires DistinctNames(condNames) && NoDerivClash(condNames) && m < |condNames| == |dn|
    requires forall c :: 0 <= c < |dn| ==> dn[c] == condNames[c] + "_deriv"
    ensures condNames[m] + "_deriv" !in condNames + dn[..m]
  {
    var key := condNames[m] + "_deriv";
    if key in condNames + dn[..m] {
      var i :| 0 <= i < |condNames| + m && (condNames + dn[..m])[i] == key;
      if i < |condNames| {
        assert false;
      } else {
        assert dn[i - |condNames|] == key;
        DerivNameInjective(condNames[i - |condNames|], condNames[m]);
        assert false;
      }
    }
  }

  lemma AppendNext(condNames: seq<string>, dn: seq<string>, n: nat)
    requires 0 < n <= |dn|
    ensures condNames + dn[..n] == (condNames + dn[..n - 1]) + [dn[n - 1]]
  {
    assert dn[..n] == dn[..n - 1] + [dn[n - 1]];
  }

  /** Without a name clash, the derivative names are all appended after the
      conditions, in the order of the conditions. */
  lemma {:induction false} ConvolvedNamesNoClash(model: H.HrfModel, condNames: seq<string>, n: nat)
    requires n <= |condNames| && DistinctNames(condNames) && NoDerivClash(condNames)
    ensures NamesUpTo(model, condNames, n) == condNames + DerivNames(model, condNames)[..(if H.HasDeriv(model) then n else 0)]
  {
    if n > 0 {
      ConvolvedNamesNoClash(model, condNames, n - 1);
      if H.HasDeriv(model) {
        var dn := DerivNames(model, condNames);
        NotYetNamed(condNames, dn, n - 1);
        AppendNext(condNames, dn, n);
      }
    }
  }

  /** A named block of columns. */
  datatype Block = Block(names: seq<string>, cols: seq<seq<real>>)

  /** `frame[key] = vals`: the column named key takes the values; if there is
      none, a new column of that name is appended. */
  function Put(b: Block, key: string, vals: seq<real>): (r: Block)
    requires |b.names| == |b.cols|
    ensures r.names == if key in b.names then b.names else b.names + [key]
    ensures |r.cols| == |r.names|
  {
    if key in b.names
    then Block(b.names, seq(|b.cols|, i requires 0 <= i < |b.cols| => if b.names[i] == key then vals else b.cols[i]))
    else Block(b.names + [key], b.cols + [vals])
  }

  /** After `Put`, the column named key holds the values and every other column is unchanged. */
  lemma PutValues(b: Block, key: string, vals: seq<real>)
    requires |b.names| == |b.cols|
    ensures forall i :: 0 <= i < |Put(b, key, vals).names| ==>
              Put(b, key, vals).cols[i] == if Put(b, key, vals).names[i] == key then vals else b.cols[i]
  {
  }

  /** `for key, vals in res.iteritems(): frame[key] = vals`. */
  function PutAll(b: Block, res: seq<H.Column>): (r: Block)
    requires |b.names| == |b.cols|
    ensures |r.names| == |r.cols|
    decreases |res|
  {
    if |res| == 0 then b else PutAll(Put(b, res[0].name, res[0].values), res[1..])
  }

  /** Whether `_convolve` gets through every condition. */
  predicate ConvolvesOk(model: H.HrfModel, condNames: seq<string>)
  {
    |condNames| == 0 || model.IdentityHrf? || H.Usable(model.kernel)
  }

  /** What `hrf_model.convolve` returns for each condition's hires column. */
  function Outputs(model: H.HrfModel, condNames: seq<string>, base: seq<seq<real>>): (outs: seq<Result<seq<H.Column>>>)
    requires |base| == |condNames|
    ensures |outs| == |condNames|
  {
    seq(|condNames|, c requires 0 <= c < |condNames| => H.Convolve(model, base[c], condNames[c]))
  }

  /** One condition's output: its main column under its own name, then, with a
      derivative channel, the derivative column under the `_deriv` name, all
      of length L. */
  predicate OutputShaped(out: Result<seq<H.Column>>, name: string, deriv: bool, L: nat)
  {
    out.Ok? && |out.value| == (if deriv then 2 else 1) && out.value[0].name == name
    && (deriv ==> out.value[1].name == name + "_deriv")
    && forall i :: 0 <= i < |out.value| ==> |out.value[i].values| == L
  }

  predicate Shaped(outs: seq<Result<seq<H.Column>>>, condNames: seq<string>, deriv: bool, L: nat)
    requires |outs| == |condNames|
  {
    forall c {:trigger outs[c]} :: 0 <= c < |outs| ==> OutputShaped(outs[c], condNames[c], deriv, L)
  }

  /** Every hires base column holds the same positive number of samples. */
  predicate HiresShaped(base: seq<seq<real>>, ntpHires: nat)
  {
    ntpHires > 0 && forall c :: 0 <= c < |base| ==> |base[c]| == ntpHires
  }

  /** A model that convolves at all gives every condition an output of that shape. */
  lemma OutputsShaped(model: H.HrfModel, condNames: seq<string>, base: seq<seq<real>>, ntpHires: nat)
    requires |base| == |condNames|
    requires HiresShaped(base, ntpHires)
    requires ConvolvesOk(model, condNames)
    ensures Shaped(Outputs(model, condNames, base), condNames, H.HasDeriv(model), ntpHires)
  {
    var outs := Outputs(model, condNames, base);
    forall c | 0 <= c < |outs|
      ensures OutputShaped(outs[c], condNames[c], H.HasDeriv(model), ntpHires)
    {
      assert outs[c] == H.Convolve(model, base[c], condNames[c]);
    }
  }

  /** The block once `_convolve` has handled the first n conditions: a copy of
      the hires base, with each condition's output columns written into it.
      (A condition that fails to convolve stops `_convolve`; the block is
      only used where every condition convolves.) */
  function ConvolvedUpTo(condNames: seq<string>, base: seq<seq<real>>, outs: seq<Result<seq<H.Column>>>, n: nat)
    : (b: Block)
    requires |base| == |condNames| == |outs| && n <= |condNames|
    ensures |b.names| == |b.cols|
  {
    if n == 0 then Block(condNames, base)
    else
      var prev := ConvolvedUpTo(condNames, base, outs, n - 1);
      match outs[n - 1]
      case Ok(cols) => PutAll(prev, cols)
      case Err(_) => prev
  }

  /** Writing a column of length L into a block of such columns keeps them all of length L. */
  lemma PutLengths(b: Block, key: string, vals: seq<real>, L: nat)
    requires |b.names| == |b.cols| && |vals| == L
    requires forall i :: 0 <= i < |b.cols| ==> |b.cols[i]| == L
    ensures forall i :: 0 <= i < |Put(b, key, vals).cols| ==> |Put(b, key, vals).cols[i]| == L
  {
    PutValues(b, key, vals);
  }

  /** Writing one or two columns in turn. */
  lemma PutAllPair(b: Block, res: seq<H.Column>)
    requires |b.names| == |b.cols| && 1 <= |res| <= 2
    ensures |res| == 1 ==> PutAll(b, res) == Put(b, res[0].name, res[0].values)
    ensures |res| == 2 ==> PutAll(b, res) == Put(Put(b, res[0].name, res[0].values), res[1].name, res[1].values)
  {
    var b1 := Put(b, res[0].name, res[0].values);
    assert PutAll(b, res) == PutAll(b1, res[1..]);
    if |res| == 2 {
      assert res[1..][0] == res[1] && |res[1..][1..]| == 0;
    }
  }

  /** One condition's output written into a block that already holds its
      name: the derivative name is appended unless present. */
  lemma PutAllNames(b: Block, cols: seq<H.Column>, name: string, deriv: bool)
    requires |b.names| == |b.cols| && name in b.names
    requires |cols| == (if deriv then 2 else 1) && cols[0].name == name
    requires deriv ==> cols[1].name == name + "_deriv"
    ensures PutAll(b, cols).names ==
              if deriv && name + "_deriv" !in b.names then b.names + [name + "_deriv"] else b.names
  {
    PutAllPair(b, cols);
  }

  /** One condition's output, all of length L, written into a block of such columns. */
  lemma PutAllLengths(b: Block, cols: seq<H.Column>, L: nat)
    requires |b.names| == |b.cols| && 1 <= |cols| <= 2
    requires forall i :: 0 <= i < |b.cols| ==> |b.cols[i]| == L
    requires forall i :: 0 <= i < |cols| ==> |cols[i].values| == L
    ensures forall i :: 0 <= i < |PutAll(b, cols).cols| ==> |PutAll(b, cols).cols[i]| == L
  {
    PutAllPair(b, cols);
    PutLengths(b, cols[0].name, cols[0].values, L);
    if |cols| == 2 {
      PutLengths(Put(b, cols[0].name, cols[0].values), cols[1].name, cols[1].values, L);
    }
  }

  /** The names of the partial block are those `NamesUpTo` gives. */
  lemma {:induction false} ConvolvedUpToNames(model: H.HrfModel, condNames: seq<string>, base: seq<seq<real>>,
                                              outs: seq<Result<seq<H.Column>>>, L: nat, n: nat)
    requires |base| == |condNames| == |outs| && n <= |condNames|
    requires Shaped(outs, condNames, H.HasDeriv(model), L)
    ensures ConvolvedUpTo(condNames, base, outs, n).names == NamesUpTo(model, condNames, n)
  {
    if n > 0 {
      ConvolvedUpToNames(model, condNames, base, outs, L, n - 1);
      NamesUpToBounds(model, condNames, n - 1);
      var prev := ConvolvedUpTo(condNames, base, outs, n - 1);
      assert prev.names[n - 1] == condNames[n - 1];
      assert OutputShaped(outs[n - 1], condNames[n - 1], H.HasDeriv(model), L);
      PutAllNames(prev, outs[n - 1].value, condNames[n - 1], H.HasDeriv(model));
    }
  }

  /** Every column of the partial block has the hires length. */
  lemma {:induction false} ConvolvedUpToLengths(condNames: seq<string>, base: seq<seq<real>>,
                                                outs: seq<Result<seq<H.Column>>>, deriv: bool, L: nat, n: nat)
    requires |base| == |condNames| == |outs| && n <= |condNames|
    requires forall c :: 0 <= c < |base| ==> |base[c]| == L
    requires Shaped(outs, condNames, deriv, L)
    ensures forall i :: 0 <= i < |ConvolvedUpTo(condNames, base, outs, n).cols| ==>
              |ConvolvedUpTo(condNames, base, outs, n).cols[i]| == L
  {
    if n > 0 {
      ConvolvedUpToLengths(condNames, base, outs, deriv, L, n - 1);
      assert OutputShaped(outs[n - 1], condNames[n - 1], deriv, L);
      PutAllLengths(ConvolvedUpTo(condNames, base, outs, n - 1), outs[n - 1].value, L);
    }
  }

  /** The block `_convolve` leaves. */
  function ConvolvedBlock(model: H.HrfModel, condNames: seq<string>, base: seq<seq<real>>, ntpHires: nat): (b: Block)
    requires |base| == |condNames|
    requires HiresShaped(base, ntpHires)
    requires ConvolvesOk(model, condNames) && DistinctNames(condNames)
    ensures b.names == ConvolvedNames(model, condNames)
    ensures |b.cols| == |b.names|
    ensures forall c :: 0 <= c < |b.cols| ==> |b.cols[c]| == ntpHires
  {
    var outs := Outputs(model, condNames, base);
    OutputsShaped(model, condNames, base, ntpHires);
    ConvolvedUpToNames(model, condNames, base, outs, ntpHires, |condNames|);
    ConvolvedUpToLengths(condNames, base, outs, H.HasDeriv(model), ntpHires, |condNames|);
    ConvolvedUpTo(condNames, base, outs, |condNames|)
  }

  /** The main-channel column of every output. */
  function MainColumns(outs: seq<Result<seq<H.Column>>>): (cols: seq<seq<real>>)
    requires forall c :: 0 <= c < |outs| ==> outs[c].Ok? && |outs[c].value| > 0
    ensures |cols| == |outs| && forall c :: 0 <= c < |outs| ==> cols[c] == outs[c].value[0].values
  {
    seq(|outs|, c requires 0 <= c < |outs| => outs[c].value[0].values)
  }

  /** The derivative-channel column of every output, if there is such a channel. */
  function DerivColumns(outs: seq<Result<seq<H.Column>>>, deriv: bool): (cols: seq<seq<real>>)
    requires deriv ==> forall c :: 0 <= c < |outs| ==> outs[c].Ok? && |outs[c].value| > 1
    ensures |cols| == if deriv then |outs| else 0
    ensures forall c :: 0 <= c < |cols| ==> cols[c] == outs[c].value[1].values
  {
    if deriv then seq(|outs|, c requires 0 <= c < |outs| => outs[c].value[1].values) else []
  }

  /** Writing a column that exists exactly once replaces it in place. */
  lemma PutExisting(b: Block, key: string, vals: seq<real>, j: nat)
    requires |b.names| == |b.cols| && j < |b.names| && b.names[j] == key
    requires forall i :: 0 <= i < |b.names| && i != j ==> b.names[i] != key
    ensures Put(b, key, vals) == Block(b.names, b.cols[j := vals])
  {
    PutValues(b, key, vals);
  }

  /** Without a name clash, condition m's name occurs only at position m. */
  lemma NamedOnlyAt(condNames: seq<string>, dn: seq<string>, m: nat)
    requires DistinctNames(condNames) && NoDerivClash(condNames) && m < |condNames|
    requires |dn| <= |condNames| && forall c :: 0 <= c < |dn| ==> dn[c] == condNames[c] + "_deriv"
    ensures forall i :: 0 <= i < |condNames + dn| && i != m ==> (condNames + dn)[i] != condNames[m]
  {
    forall i | 0 <= i < |condNames + dn| && i != m
      ensures (condNames + dn)[i] != condNames[m]
    {
      if i >= |condNames| {
        assert (condNames + dn)[i] == condNames[i - |condNames|] + "_deriv";
      }
    }
  }

  lemma SpliceNext<T>(main: seq<T>, base: seq<T>, rest: seq<T>, n: nat)
    requires 0 < n <= |main| == |base|
    ensures (main[..n - 1] + base[n - 1..] + rest)[n - 1 := main[n - 1]] == main[..n] + base[n..] + rest
  {
    assert main[..n] == main[..n - 1] + [main[n - 1]];
    assert base[n - 1..] == [base[n - 1]] + base[n..];
  }

  /** Without a name clash, condition n-1's derivative response is appended under its new name. */
  lemma NoClashDerivStep(condNames: seq<string>, dn: seq<string>, X: seq<seq<real>>, D: seq<seq<real>>,
                         n: nat, b1: Block)
    requires 0 < n <= |dn| == |D|
    requires dn[n - 1] !in condNames + dn[..n - 1]
    requires b1 == Block(condNames + dn[..n - 1], X + D[..n - 1]) && |b1.names| == |b1.cols|
    ensures Put(b1, dn[n - 1], D[n - 1]) == Block(condNames + dn[..n], X + D[..n])
  {
    AppendNext(condNames, dn, n);
    assert D[..n] == D[..n - 1] + [D[n - 1]];
  }

  /** What step n of `_convolve` needs without a name clash: condition n-1's
      output holds its main response under its own name, which occurs only at
      position n-1, and its derivative response under a name not yet used. */
  ghost predicate StepOk(condNames: seq<string>, dn: seq<string>, M: seq<seq<real>>, D: seq<seq<real>>,
                         outs: seq<Result<seq<H.Column>>>, deriv: bool, n: nat)
  {
    var k0 := if deriv then n - 1 else 0;
    0 < n <= |outs| == |condNames| == |M| && |dn| == |D| == (if deriv then |condNames| else 0)
    && outs[n - 1].Ok? && |outs[n - 1].value| == (if deriv then 2 else 1)
    && outs[n - 1].value[0].name == condNames[n - 1] && outs[n - 1].value[0].values == M[n - 1]
    && (deriv ==> outs[n - 1].value[1].name == dn[n - 1] && outs[n - 1].value[1].values == D[n - 1]
                  && dn[n - 1] !in condNames + dn[..n - 1])
    && forall i :: 0 <= i < |condNames + dn[..k0]| && i != n - 1 ==> (condNames + dn[..k0])[i] != condNames[n - 1]
  }

  /** Without a name clash, every step has what it needs. */
  lemma StepsOk(model: H.HrfModel, condNames: seq<string>, outs: seq<Result<seq<H.Column>>>, L: nat)
    requires |outs| == |condNames| && Shaped(outs, condNames, H.HasDeriv(model), L)
    requires DistinctNames(condNames) && NoDerivClash(condNames)
    ensures forall n :: 0 < n <= |condNames| ==>
              StepOk(condNames, DerivNames(model, condNames), MainColumns(outs),
                     DerivColumns(outs, H.HasDeriv(model)), outs, H.HasDeriv(model), n)
  {
    var M, D, dn := MainColumns(outs), DerivColumns(outs, H.HasDeriv(model)), DerivNames(model, condNames);
    forall n | 0 < n <= |condNames|
      ensures StepOk(condNames, dn, M, D, outs, H.HasDeriv(model), n)
    {
      var k0 := if H.HasDeriv(model) then n - 1 else 0;
      assert OutputShaped(outs[n - 1], condNames[n - 1], H.HasDeriv(model), L);
      NamedOnlyAt(condNames, dn[..k0], n - 1);
      if H.HasDeriv(model) {
        NotYetNamed(condNames, dn, n - 1);
      }
    }
  }

  /** One step of `_convolve` without a name clash: the condition's main
      response replaces its hires base column, and its derivative response is
      appended under its new name. */
  lemma NoClashStep(condNames: seq<string>, dn: seq<string>, M: seq<seq<real>>, base: seq<seq<real>>,
                    D: seq<seq<real>>, outs: seq<Result<seq<H.Column>>>, deriv: bool, n: nat, prev: Block)
    requires StepOk(condNames, dn, M, D, outs, deriv, n) && |base| == |condNames|
    requires var k0 := if deriv then n - 1 else 0;
             prev == Block(condNames + dn[..k0], M[..n - 1] + base[n - 1..] + D[..k0])
    ensures var k := if deriv then n else 0;
            |prev.names| == |prev.cols| &&
            PutAll(prev, outs[n - 1].value) == Block(condNames + dn[..k], M[..n] + base[n..] + D[..k])
  {
    var k0 := if deriv then n - 1 else 0;
    var res := outs[n - 1].value;
    PutAllPair(prev, res);
    PutExisting(prev, condNames[n - 1], M[n - 1], n - 1);
    SpliceNext(M, base, D[..k0], n);
    var b1 := Put(prev, condNames[n - 1], M[n - 1]);
    assert b1 == Block(condNames + dn[..k0], M[..n] + base[n..] + D[..k0]);
    if deriv {
      NoClashDerivStep(condNames, dn, M[..n] + base[n..], D, n, b1);
    }
  }

  /** After n steps without a name clash: the main responses of the first n
      conditions, the hires base of the others, then the first n derivative
      responses. */
  lemma {:induction false} NoClashUpTo(condNames: seq<string>, dn: seq<string>, M: seq<seq<real>>,
                                       base: seq<seq<real>>, D: seq<seq<real>>,
                                       outs: seq<Result<seq<H.Column>>>, deriv: bool, n: nat)
    requires |base| == |condNames| == |outs| == |M| && |dn| == |D| == (if deriv then |condNames| else 0)
    requires n <= |condNames|
    requires forall m :: 0 < m <= n ==> StepOk(condNames, dn, M, D, outs, deriv, m)
    ensures var k := if deriv then n else 0;
            ConvolvedUpTo(condNames, base, outs, n) == Block(condNames + dn[..k], M[..n] + base[n..] + D[..k])
  {
    if n == 0 {
      assert M[..0] + base[0..] + D[..0] == base;
      assert condNames + dn[..0] == condNames;
    } else {
      NoClashUpTo(condNames, dn, M, base, D, outs, deriv, n - 1);
      assert StepOk(condNames, dn, M, D, outs, deriv, n);
      NoClashStep(condNames, dn, M, base, D, outs, deriv, n, ConvolvedUpTo(condNames, base, outs, n - 1));
    }
  }

  /** Without a name clash, after n conditions the block holds the main
      responses of the first n conditions, the hires base of the others, and
      then the derivative responses of the first n. */
  lemma ConvolvedUpToNoClash(model: H.HrfModel, condNames: seq<string>, base: seq<seq<real>>,
                             outs: seq<Result<seq<H.Column>>>, L: nat, n: nat)
    requires |base| == |condNames| == |outs| && n <= |condNames|
    requires Shaped(outs, condNames, H.HasDeriv(model), L)
    requires DistinctNames(condNames) && NoDerivClash(condNames)
    ensures var k := if H.HasDeriv(model) then n else 0;
            ConvolvedUpTo(condNames, base, outs, n) ==
              Block(condNames + DerivNames(model, condNames)[..k],
                    MainColumns(outs)[..n] + base[n..] + DerivColumns(outs, H.HasDeriv(model))[..k])
  {
    StepsOk(model, condNames, outs, L);
    NoClashUpTo(condNames, DerivNames(model, condNames), MainColumns(outs), base,
                DerivColumns(outs, H.HasDeriv(model)), outs, H.HasDeriv(model), n);
  }

  lemma AllWrittenNoClash(model: H.HrfModel, condNames: seq<string>, base: seq<seq<real>>,
                          outs: seq<Result<seq<H.Column>>>, L: nat)
    requires |base| == |condNames| == |outs|
    requires Shaped(outs, condNames, H.HasDeriv(model), L)
    requires DistinctNames(condNames) && NoDerivClash(condNames)
    ensures ConvolvedUpTo(condNames, base, outs, |condNames|) ==
              Block(condNames + DerivNames(model, condNames), MainColumns(outs) + DerivColumns(outs, H.HasDeriv(model)))
  {
    var n := |condNames|;
    ConvolvedUpToNoClash(model, condNames, base, outs, L, n);
    WholePrefix(condNames, DerivNames(model, condNames));
    WholeSplice(MainColumns(outs), base, DerivColumns(outs, H.HasDeriv(model)));
  }

  lemma WholePrefix<T>(a: seq<T>, d: seq<T>)
    ensures a + d[..|d|] == a + d
  {
    assert d[..|d|] == d;
  }

  lemma WholeSplice<T>(main: seq<T>, base: seq<T>, d: seq<T>)
    requires |main| == |base|
    ensures main[..|main|] + base[|base|..] + d[..|d|] == main + d
  {
    assert main[..|main|] == main && base[|base|..] == [] && d[..|d|] == d;
  }

  /** Without a name clash, `_convolve` leaves the main response of every
      condition under its own name, followed by the derivative responses
      under the `_deriv` names, in condition order. */
  lemma ConvolvedBlockNoClash(model: H.HrfModel, condNames: seq<string>, base: seq<seq<real>>, ntpHires: nat)
    requires |base| == |condNames|
    requires HiresShaped(base, ntpHires)
    requires ConvolvesOk(model, condNames) && DistinctNames(condNames) && NoDerivClash(condNames)
    ensures var outs := Outputs(model, condNames, base);
            ConvolvedBlock(model, condNames, base, ntpHires) ==
              Block(condNames + DerivNames(model, condNames), MainColumns(outs) + DerivColumns(outs, H.HasDeriv(model)))
  {
    var outs := Outputs(model, condNames, base);
    OutputsShaped(model, condNames, base, ntpHires);
    AllWrittenNoClash(model, condNames, base, outs, ntpHires);
  }

  /** The conditions `["A", "A_deriv"]` under a model with a derivative
      channel: `A`'s derivative name already exists, so only `A_deriv_deriv`
      is appended. */
  lemma DerivNameClashNames(model: H.HrfModel)
    requires H.HasDeriv(model)
    ensures ConvolvedNames(model, ["A", "A_deriv"]) == ["A", "A_deriv", "A_deriv_deriv"]
  {
    var names := ["A", "A_deriv"];
    assert NamesUpTo(model, names, 0) == names;
    assert names[0] + "_deriv" == "A_deriv";
    assert NamesUpTo(model, names, 1) == names;
    assert names[1] + "_deriv" == "A_deriv_deriv";
    assert "A_deriv_deriv" !in names;
  }

  /** Writing the outputs of the conditions `["A", "A_deriv"]`, each with a
      derivative column, into their hires base. */
  lemma ClashColumns(base: seq<seq<real>>, outs: seq<Result<seq<H.Column>>>, L: nat)
    requires |base| == |outs| == 2 && Shaped(outs, ["A", "A_deriv"], true, L)
    ensures ConvolvedUpTo(["A", "A_deriv"], base, outs, 2) ==
              Block(["A", "A_deriv", "A_deriv_deriv"],
                    [outs[0].value[0].values, outs[1].value[0].values, outs[1].value[1].values])
  {
    var names := ["A", "A_deriv"];
    assert OutputShaped(outs[0], "A", true, L) && OutputShaped(outs[1], "A_deriv", true, L);
    var m0, d0, m1, d1 := outs[0].value[0].values, outs[0].value[1].values, outs[1].value[0].values, outs[1].value[1].values;
    assert "A" + "_deriv" == "A_deriv" && "A_deriv" + "_deriv" == "A_deriv_deriv";
    var b0 := Block(names, base);
    PutAllPair(b0, outs[0].value);
    PutExisting(b0, "A", m0, 0);
    PutExisting(Block(names, [m0, base[1]]), "A_deriv", d0, 1);
    var b2 := Block(names, [m0, d0]);
    assert ConvolvedUpTo(names, base, outs, 1) == b2;
    PutAllPair(b2, outs[1].value);
    PutExisting(b2, "A_deriv", m1, 1);
    assert "A_deriv_deriv" !in names;
  }

  /** The same conditions in the block: `A`'s derivative response is written
      into the column `A_deriv` and then overwritten by the main response of
      the condition `A_deriv`, so it appears nowhere. */
  lemma DerivNameClash(model: H.HrfModel, base: seq<seq<real>>, ntpHires: nat)
    requires H.HasDeriv(model) && H.Usable(model.kernel)
    requires |base| == 2 && |base[0]| == ntpHires > 0 && |base[1]| == ntpHires
    ensures var outs := Outputs(model, ["A", "A_deriv"], base);
            var b := ConvolvedBlock(model, ["A", "A_deriv"], base, ntpHires);
            b.names == ["A", "A_deriv", "A_deriv_deriv"]
            && b.cols == [outs[0].value[0].values, outs[1].value[0].values, outs[1].value[1].values]
  {
    OutputsShaped(model, ["A", "A_deriv"], base, ntpHires);
    ClashColumns(base, Outputs(model, ["A", "A_deriv"], base), ntpHires);
  }

  /** Writing the columns from position i on is writing column i, then the rest. */
  lemma PutAllStep(b: Block, res: seq<H.Column>, i: nat)
    requires |b.names| == |b.cols| && i < |res|
    ensures PutAll(b, res[i..]) == PutAll(Put(b, res[i].name, res[i].values), res[i + 1..])
  {
    assert res[i..][0] == res[i] && res[i..][1..] == res[i + 1..];
  }

  /** A condition that fails to convolve means the model cannot convolve these conditions. */
  lemma ConvolveFails(model: H.HrfModel, condNames: seq<string>, base: seq<seq<real>>, c: nat)
    requires |base| == |condNames| && c < |condNames| && |base[c]| > 0
    requires H.Convolve(model, base[c], condNames[c]).Err?
    ensures !ConvolvesOk(model, condNames)
  {
  }

  /** `for key, vals in res.iteritems(): frame[key] = vals`, column by column. */
  method WriteColumns(b: Block, res: seq<H.Column>) returns (r: Block)
    requires |b.names| == |b.cols|
    ensures r == PutAll(b, res)
  {
    r := b;
    for i := 0 to |res|
      invariant |r.names| == |r.cols|
      invariant PutAll(r, res[i..]) == PutAll(b, res)
    {
      PutAllStep(r, res, i);
      r := Put(r, res[i].name, res[i].values);
    }
    assert res[|res|..] == [];
  }

  /** `_convolve`: a copy of the hires base into which each condition's output
      columns are written, key by key, replacing a column of the same name or
      appending a new one. */
  method ConvolveConditions(model: H.HrfModel, condNames: seq<string>, base: seq<seq<real>>, ntpHires: nat)
    returns (r: Result<Block>)
    requires |base| == |condNames|
    requires HiresShaped(base, ntpHires)
    requires DistinctNames(condNames)
    ensures r.Ok? <==> ConvolvesOk(model, condNames)
    ensures r.Ok? ==> r.value == ConvolvedBlock(model, condNames, base, ntpHires)
  {
    ghost var outs := Outputs(model, condNames, base);
    var conv := Block(condNames, base);
    for c := 0 to |condNames|
      invariant c > 0 ==> ConvolvesOk(model, condNames)
      invariant conv == ConvolvedUpTo(condNames, base, outs, c)
    {
      var res := H.Convolve(model, base[c], condNames[c]);
      if res.Err? {
        ConvolveFails(model, condNames, base, c);
        return Err(res.message);
      }
      assert outs[c] == res;
      conv := WriteColumns(conv, res.value);
    }
    r := Ok(conv);
  }

  /** The nearest-neighbour resampling at the frame midpoints, given the hires
      sample that the interpolation picks for each acquisition frame. */
  function Subsample(x: seq<real>, picks: seq<nat>): (r: seq<real>)
    requires forall t :: 0 <= t < |picks| ==> picks[t] < |x|
    ensures |r| == |picks|
    ensures forall t :: 0 <= t < |picks| ==> r[t] in x
  {
    seq(|picks|, t requires 0 <= t < |picks| => x[picks[t]])
  }

  /** Resampling a constant hires signal gives the same constant at every frame. */
  lemma SubsampleConstant(x: seq<real>, picks: seq<nat>, v: real)
    requires forall t :: 0 <= t < |picks| ==> picks[t] < |x|
    requires forall i :: 0 <= i < |x| ==> x[i] == v
    ensures forall t :: 0 <= t < |picks| ==> Subsample(x, picks)[t] == v
  {
  }

  predicate SquareOf(f: seq<seq<real>>, n: nat)
  {
    |f| == n && forall i :: 0 <= i < |f| ==> |f[i]| == n
  }

  /** The condition block as it enters the full matrix, with the heights recorded
      before filtering. */
  datatype ConditionBlock = ConditionBlock(names: seq<string>, cols: seq<seq<real>>, ppHeights: seq<real>)

  /** Every column resampled at the frames. */
  function SubsampleAll(cols: seq<seq<real>>, picks: seq<nat>, ntpHires: nat): (r: seq<seq<real>>)
    requires forall t :: 0 <= t < |picks| ==> picks[t] < ntpHires
    requires forall c :: 0 <= c < |cols| ==> |cols[c]| == ntpHires
    ensures |r| == |cols|
    ensures forall c :: 0 <= c < |cols| ==> r[c] == Subsample(cols[c], picks) && |r[c]| == |picks|
  {
    seq(|cols|, c requires 0 <= c < |cols| => Subsample(cols[c], picks))
  }

  /** `np.dot(F, vals)` for every column. */
  function FilterAll(f: seq<seq<real>>, cols: seq<seq<real>>, ntp: nat): (r: seq<seq<real>>)
    requires SquareOf(f, ntp) && forall c :: 0 <= c < |cols| ==> |cols[c]| == ntp
    ensures |r| == |cols|
    ensures forall c :: 0 <= c < |cols| ==> r[c] == MatVec(f, cols[c]) && |r[c]| == ntp
  {
    seq(|cols|, c requires 0 <= c < |cols| => MatVec(f, cols[c]))
  }

  /** The condition columns of `__init__`: subsample, demean, record the
      peak-to-peak heights, then apply the high-pass filter matrix if any. */
  function Finish(conv: Block, picks: seq<nat>, ntpHires: nat, filter: Option<seq<seq<real>>>)
    : (b: ConditionBlock)
    requires |picks| > 0 && forall t :: 0 <= t < |picks| ==> picks[t] < ntpHires
    requires forall c :: 0 <= c < |conv.cols| ==> |conv.cols[c]| == ntpHires
    requires filter.Some? ==> SquareOf(filter.value, |picks|)
    ensures b.names == conv.names
    ensures |b.cols| == |b.ppHeights| == |conv.cols|
    ensures forall c :: 0 <= c < |b.cols| ==> |b.cols[c]| == |picks|
    ensures forall c :: 0 <= c < |b.cols| ==>
              b.ppHeights[c] == PeakToPeak(Subsample(conv.cols[c], picks)) && b.ppHeights[c] >= 0.0
    ensures filter.None? ==> forall c :: 0 <= c < |b.cols| ==> Sum(b.cols[c]) == 0.0
  {
    var ntp := |picks|;
    var sub := SubsampleAll(conv.cols, picks, ntpHires);
    var centered := DemeanAll(sub, ntp);
    HeightsDemeaned(sub, ntp);
    var filtered := if filter.Some? then FilterAll(filter.value, centered, ntp) else centered;
    ConditionBlock(conv.names, filtered, Heights(centered, ntp))
  }

  /** The condition block `DesignMatrix.__init__` computes from the design:
      encoded, convolved, subsampled, demeaned and filtered. */
  function ConditionMatrix(grid: seq<real>, d: EventTable, condNames: seq<string>, model: H.HrfModel,
                           picks: seq<nat>, filter: Option<seq<seq<real>>>): (cb: ConditionBlock)
    requires |grid| > 0 && WellFormedTable(d)
    requires |picks| > 0 && forall t :: 0 <= t < |picks| ==> picks[t] < |grid|
    requires filter.Some? ==> SquareOf(filter.value, |picks|)
    requires ConvolvesOk(model, condNames) && DistinctNames(condNames)
    ensures cb.names == ConvolvedNames(model, condNames)
    ensures |cb.cols| == |cb.names| == |cb.ppHeights|
    ensures forall c :: 0 <= c < |cb.cols| ==> |cb.cols[c]| == |picks|
  {
    Finish(ConvolvedBlock(model, condNames, HiresBase(grid, d, condNames), |grid|), picks, |grid|, filter)
  }

  /** The condition side of `__init__`, failing where `_convolve` raises. */
  method BuildConditions(grid: seq<real>, d: EventTable, condNames: seq<string>, model: H.HrfModel,
                         picks: seq<nat>, filter: Option<seq<seq<real>>>)
    returns (r: Result<ConditionBlock>)
    requires |grid| > 0 && WellFormedTable(d)
    requires |picks| > 0 && forall t :: 0 <= t < |picks| ==> picks[t] < |grid|
    requires filter.Some? ==> SquareOf(filter.value, |picks|)
    requires DistinctNames(condNames)
    ensures r.Ok? <==> ConvolvesOk(model, condNames)
    ensures r.Ok? ==> r.value == ConditionMatrix(grid, d, condNames, model, picks, filter)
  {
    var base := MakeHiresBase(grid, d, condNames);
    var conv := ConvolveConditions(model, condNames, base, |grid|);
    if conv.Err? {
      return Err(conv.message);
    }
    r := Ok(Finish(conv.value, picks, |grid|, filter));
  }
}
