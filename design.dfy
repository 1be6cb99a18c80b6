/**
 * `DesignMatrix`: the assembled, demeaned matrix with its column groups
 * (conditions, regressors of interest, confounds, artifacts), the name lists
 * and boolean masks over its columns, the submatrix accessors and
 * `contrast_vector`. `Build` follows `DesignMatrix.__init__` step by step.
 */
module DesignMatrices {
  import opened Wrappers
  import opened Columns
  import C = Components
  import K = Conditions
  import H = Hrf

  /** A selection of labelled columns of the matrix. */
  datatype Submatrix = Submatrix(columns: seq<C.Label>, data: seq<seq<real>>)

  function Labels(names: seq<string>): (r: seq<C.Label>)
    ensures |r| == |names| && forall i :: 0 <= i < |names| ==> r[i] == C.Name(names[i])
  {
    seq(|names|, i requires 0 <= i < |names| => C.Name(names[i]))
  }

  /** Every column has ntp rows and a label. */
  predicate Shaped(b: Submatrix, ntp: nat)
  {
    |b.data| == |b.columns| && forall c :: 0 <= c < |b.data| ==> |b.data[c]| == ntp
  }

  predicate ShapedOpt(b: Option<Submatrix>, ntp: nat)
  {
    b.Some? ==> Shaped(b.value, ntp)
  }

  function ColumnsOf(b: Option<Submatrix>): seq<C.Label>
  {
    match b case Some(s) => s.columns case None => []
  }

  function DataOf(b: Option<Submatrix>): seq<seq<real>>
  {
    match b case Some(s) => s.data case None => []
  }

  /** `columns.isin(names)`. */
  function IsIn(columns: seq<C.Label>, names: seq<C.Label>): (m: seq<bool>)
    ensures |m| == |columns|
  {
    seq(|columns|, c requires 0 <= c < |columns| => columns[c] in names)
  }

  /** The mask marks exactly the columns whose label is among the names. */
  lemma IsInMarks(columns: seq<C.Label>, names: seq<C.Label>, c: nat)
    requires c < |columns|
    ensures IsIn(columns, names)[c] <==> columns[c] in names
  {
  }

  /** The columns among the first n that carry `name`, in column order. */
  function Matching(columns: seq<C.Label>, data: seq<seq<real>>, name: C.Label, n: nat): (r: Submatrix)
    requires |data| == |columns| && n <= |columns|
    ensures |r.columns| == |r.data|
    ensures forall i :: 0 <= i < |r.columns| ==> r.columns[i] == name
  {
    if n == 0 then Submatrix([], [])
    else
      var prev := Matching(columns, data, name, n - 1);
      if columns[n - 1] == name then Submatrix(prev.columns + [name], prev.data + [data[n - 1]]) else prev
  }

  /** `X[names]`: for each name in turn, the columns that carry it. */
  function Select(columns: seq<C.Label>, data: seq<seq<real>>, names: seq<C.Label>): (r: Submatrix)
    requires |data| == |columns|
    ensures |r.columns| == |r.data|
    ensures forall i :: 0 <= i < |r.columns| ==> r.columns[i] in names
  {
    if |names| == 0 then Submatrix([], [])
    else
      var prev := Select(columns, data, names[..|names| - 1]);
      var m := Matching(columns, data, names[|names| - 1], |columns|);
      Submatrix(prev.columns + m.columns, prev.data + m.data)
  }

  /** The position of a label among the columns. */
  function IndexOf(columns: seq<C.Label>, name: C.Label): (p: nat)
    requires name in columns
    ensures p < |columns| && columns[p] == name
  {
    if columns[|columns| - 1] == name then |columns| - 1 else IndexOf(columns[..|columns| - 1], name)
  }

  lemma {:induction false} MatchingDistinct(columns: seq<C.Label>, data: seq<seq<real>>, p: nat, n: nat)
    requires |data| == |columns| && n <= |columns| && p < |columns|
    requires C.DistinctLabels(columns)
    ensures Matching(columns, data, columns[p], n)
         == if p < n then Submatrix([columns[p]], [data[p]]) else Submatrix([], [])
  {
    if n > 0 {
      MatchingDistinct(columns, data, p, n - 1);
    }
  }

  /** The step that `Select` takes for one more name. */
  lemma SelectStep(columns: seq<C.Label>, data: seq<seq<real>>, names: seq<C.Label>)
    requires |data| == |columns| && |names| > 0
    ensures Select(columns, data, names).columns
         == Select(columns, data, names[..|names| - 1]).columns
            + Matching(columns, data, names[|names| - 1], |columns|).columns
    ensures Select(columns, data, names).data
         == Select(columns, data, names[..|names| - 1]).data
            + Matching(columns, data, names[|names| - 1], |columns|).data
  {
  }

  /** `Matching` takes the columns at exactly the positions that carry the name,
      in column order, each with its own data. */
  lemma {:induction false} MatchingIndices(columns: seq<C.Label>, data: seq<seq<real>>, name: C.Label, n: nat)
    requires |data| == |columns| && n <= |columns|
    ensures |Matching(columns, data, name, n).columns| == |Positions(columns, name, n)|
    ensures forall k :: 0 <= k < |Positions(columns, name, n)| ==>
              Matching(columns, data, name, n).columns[k] == name
              && Matching(columns, data, name, n).data[k] == data[Positions(columns, name, n)[k]]
  {
    if n > 0 {
      MatchingIndices(columns, data, name, n - 1);
    }
  }

  /** s holds a column labelled `name` with data `col`. */
  ghost predicate HasColumn(s: Submatrix, name: C.Label, col: seq<real>)
  {
    exists k :: 0 <= k < |s.columns| && k < |s.data| && s.columns[k] == name && s.data[k] == col
  }

  /** A column joined to others, on either side, is still held. */
  lemma HasColumnJoin(a: Submatrix, b: Submatrix, name: C.Label, col: seq<real>)
    requires |a.columns| == |a.data| && |b.columns| == |b.data|
    ensures HasColumn(a, name, col) ==> HasColumn(Submatrix(a.columns + b.columns, a.data + b.data), name, col)
    ensures HasColumn(b, name, col) ==> HasColumn(Submatrix(a.columns + b.columns, a.data + b.data), name, col)
  {
    var s := Submatrix(a.columns + b.columns, a.data + b.data);
    if HasColumn(a, name, col) {
      var k :| 0 <= k < |a.columns| && k < |a.data| && a.columns[k] == name && a.data[k] == col;
      assert s.columns[k] == name && s.data[k] == col;
    }
    if HasColumn(b, name, col) {
      var k :| 0 <= k < |b.columns| && k < |b.data| && b.columns[k] == name && b.data[k] == col;
      assert s.columns[|a.columns| + k] == name && s.data[|a.data| + k] == col;
    }
  }

  /** The columns matching a name include each column that carries it. */
  lemma MatchingHas(columns: seq<C.Label>, data: seq<seq<real>>, j: nat)
    requires |data| == |columns| && j < |columns|
    ensures HasColumn(Matching(columns, data, columns[j], |columns|), columns[j], data[j])
  {
    MatchingIndices(columns, data, columns[j], |columns|);
    var idx := Positions(columns, columns[j], |columns|);
    var k :| 0 <= k < |idx| && idx[k] == j;
    var m := Matching(columns, data, columns[j], |columns|);
    assert m.columns[k] == columns[j] && m.data[k] == data[j];
  }

  /** `X[names]` keeps every column whose label is among the names, with its data. */
  lemma {:induction false} SelectComplete(columns: seq<C.Label>, data: seq<seq<real>>, names: seq<C.Label>)
    requires |data| == |columns|
    ensures forall j :: 0 <= j < |columns| && columns[j] in names ==>
              HasColumn(Select(columns, data, names), columns[j], data[j])
  {
    if |names| > 0 {
      var init, last := names[..|names| - 1], names[|names| - 1];
      SelectComplete(columns, data, init);
      SelectStep(columns, data, names);
      InitLast(names);
      var prev, m := Select(columns, data, init), Matching(columns, data, last, |columns|);
      assert Select(columns, data, names) == Submatrix(prev.columns + m.columns, prev.data + m.data);
      forall j | 0 <= j < |columns| && columns[j] in names
        ensures HasColumn(Select(columns, data, names), columns[j], data[j])
      {
        HasColumnJoin(prev, m, columns[j], data[j]);
        if columns[j] !in init {
          MatchingHas(columns, data, j);
        }
      }
    }
  }

  /** Every column `X[names]` returns is a column of X, with its own data. */
  lemma {:induction false} SelectSound(columns: seq<C.Label>, data: seq<seq<real>>, names: seq<C.Label>)
    requires |data| == |columns|
    ensures forall k :: 0 <= k < |Select(columns, data, names).columns| ==>
              HasColumn(Submatrix(columns, data), Select(columns, data, names).columns[k],
                        Select(columns, data, names).data[k])
  {
    if |names| > 0 {
      var init, last := names[..|names| - 1], names[|names| - 1];
      SelectSound(columns, data, init);
      SelectStep(columns, data, names);
      MatchingIndices(columns, data, last, |columns|);
      var prev, m := Select(columns, data, init), Matching(columns, data, last, |columns|);
      var sel := Select(columns, data, names);
      forall k | 0 <= k < |sel.columns|
        ensures HasColumn(Submatrix(columns, data), sel.columns[k], sel.data[k])
      {
        if k < |prev.columns| {
          assert sel.columns[k] == prev.columns[k] && sel.data[k] == prev.data[k];
        } else {
          var idx := Positions(columns, last, |columns|);
          var i := k - |prev.columns|;
          assert sel.columns[k] == m.columns[i] && sel.data[k] == m.data[i];
          assert columns[idx[i]] == sel.columns[k] && data[idx[i]] == sel.data[k];
        }
      }
    }
  }

  /** The column that carries each name, for names that are all present. */
  function Pick(columns: seq<C.Label>, data: seq<seq<real>>, names: seq<C.Label>): (r: seq<seq<real>>)
    requires |data| == |columns| && forall i :: 0 <= i < |names| ==> names[i] in columns
    ensures |r| == |names|
  {
    seq(|names|, i requires 0 <= i < |names| => data[IndexOf(columns, names[i])])
  }

  lemma PickStep(columns: seq<C.Label>, data: seq<seq<real>>, names: seq<C.Label>)
    requires |data| == |columns| && |names| > 0
    requires forall i :: 0 <= i < |names| ==> names[i] in columns
    ensures Pick(columns, data, names)
         == Pick(columns, data, names[..|names| - 1]) + [data[IndexOf(columns, names[|names| - 1])]]
  {
    var init := names[..|names| - 1];
    assert forall i :: 0 <= i < |init| ==> init[i] == names[i];
  }

  /** On a matrix with distinct labels, selecting present names gives exactly
      those columns, in the order of the names. */
  lemma {:induction false} SelectDistinct(columns: seq<C.Label>, data: seq<seq<real>>, names: seq<C.Label>)
    requires |data| == |columns| && C.DistinctLabels(columns)
    requires forall i :: 0 <= i < |names| ==> names[i] in columns
    ensures Select(columns, data, names) == Submatrix(names, Pick(columns, data, names))
  {
    if |names| > 0 {
      var init := names[..|names| - 1];
      assert forall i :: 0 <= i < |init| ==> init[i] == names[i];
      SelectDistinct(columns, data, init);
      SelectDistinctStep(columns, data, names);
    }
  }

  /** One more present name adds its own column to a distinct selection. */
  lemma SelectDistinctStep(columns: seq<C.Label>, data: seq<seq<real>>, names: seq<C.Label>)
    requires |data| == |columns| && C.DistinctLabels(columns) && |names| > 0
    requires forall i :: 0 <= i < |names| ==> names[i] in columns
    requires Select(columns, data, names[..|names| - 1])
          == Submatrix(names[..|names| - 1], Pick(columns, data, names[..|names| - 1]))
    ensures Select(columns, data, names) == Submatrix(names, Pick(columns, data, names))
  {
    var last := names[|names| - 1];
    MatchingDistinct(columns, data, IndexOf(columns, last), |columns|);
    SelectStep(columns, data, names);
    PickStep(columns, data, names);
    InitLast(names);
  }

  lemma InitLast<T>(s: seq<T>)
    requires |s| > 0
    ensures s[..|s| - 1] + [s[|s| - 1]] == s
  {
  }

  datatype DesignMatrix = DesignMatrix(
    columns: seq<C.Label>, frametimes: seq<real>, data: seq<seq<real>>,
    conditionNames: seq<C.Label>, mainNames: seq<C.Label>,
    confoundNames: seq<C.Label>, artifactNames: seq<C.Label>,
    ppHeights: seq<real>,
    mainVector: seq<bool>, conditionVector: seq<bool>,
    confoundVector: Option<seq<bool>>, artifactVector: Option<seq<bool>>)
  {
    /** The matrix is rectangular and every name list refers to existing columns. */
    ghost predicate Valid()
    {
      |data| == |columns| && (forall c :: 0 <= c < |data| ==> |data[c]| == |frametimes|)
      && (forall i :: 0 <= i < |mainNames| ==> mainNames[i] in columns)
      && (forall i :: 0 <= i < |conditionNames| ==> conditionNames[i] in columns)
      && (forall i :: 0 <= i < |confoundNames| ==> confoundNames[i] in columns)
      && (forall i :: 0 <= i < |artifactNames| ==> artifactNames[i] in columns)
    }

    /** `main_submatrix`: conditions (no derivatives) and regressors of interest. */
    function MainSubmatrix(): (s: Submatrix)
      requires Valid()
      ensures |s.columns| == |s.data| && forall i :: 0 <= i < |s.columns| ==> s.columns[i] in mainNames
    {
      Select(columns, data, mainNames)
    }

    /** `condition_submatrix`. */
    function ConditionSubmatrix(): (s: Submatrix)
      requires Valid()
      ensures |s.columns| == |s.data| && forall i :: 0 <= i < |s.columns| ==> s.columns[i] in conditionNames
    {
      Select(columns, data, conditionNames)
    }

    /** `confound_submatrix`: absent, not empty, when there is no confound column. */
    function ConfoundSubmatrix(): (s: Option<Submatrix>)
      requires Valid()
      ensures s.None? <==> |confoundNames| == 0
      ensures s.Some? ==> forall i :: 0 <= i < |s.value.columns| ==> s.value.columns[i] in confoundNames
    {
      if |confoundNames| == 0 then None else Some(Select(columns, data, confoundNames))
    }

    /** `artifact_submatrix`: absent, not empty, when there is no artifact column. */
    function ArtifactSubmatrix(): (s: Option<Submatrix>)
      requires Valid()
      ensures s.None? <==> |artifactNames| == 0
      ensures s.Some? ==> forall i :: 0 <= i < |s.value.columns| ==> s.value.columns[i] in artifactNames
    {
      if |artifactNames| == 0 then None else Some(Select(columns, data, artifactNames))
    }

    /** `contrast_vector`: a zero vector over the columns where, for each
        (name, weight) pair in turn (up to the shorter list), every column
        carrying the name is set to the weight. */
    method ContrastVector(names: seq<C.Label>, weights: seq<real>) returns (v: seq<real>)
      ensures |v| == |columns|
      ensures forall k :: 0 <= k < |columns| ==>
                v[k] == ContrastAt(columns[k], names, weights, if |names| < |weights| then |names| else |weights|)
    {
      var n := if |names| < |weights| then |names| else |weights|;
      var vector := new real[|columns|](_ => 0.0);
      for i := 0 to n
        invariant forall k :: 0 <= k < vector.Length ==> vector[k] == ContrastAt(columns[k], names, weights, i)
      {
        for k := 0 to vector.Length
          invariant forall j :: 0 <= j < k ==> vector[j] == ContrastAt(columns[j], names, weights, i + 1)
          invariant forall j :: k <= j < vector.Length ==> vector[j] == ContrastAt(columns[j], names, weights, i)
        {
          if columns[k] == names[i] {
            vector[k] := weights[i];
          }
        }
      }
      v := vector[..];
    }
  }

  /** What the assembly step expects from the earlier steps. */
  predicate AssemblyInputs(cb: K.ConditionBlock, condNames: seq<string>, frametimes: seq<real>,
                           reg: Option<Submatrix>, conf: Option<Submatrix>, art: Option<Submatrix>)
  {
    |frametimes| > 0
    && |cb.cols| == |cb.names| == |cb.ppHeights|
    && |condNames| <= |cb.names| && cb.names[..|condNames|] == condNames
    && (forall c :: 0 <= c < |cb.cols| ==> |cb.cols[c]| == |frametimes|)
    && ShapedOpt(reg, |frametimes|) && ShapedOpt(conf, |frametimes|) && ShapedOpt(art, |frametimes|)
  }

  /** The concatenated column labels: conditions, regressors, confounds and
      artifacts, each group a run that starts where the previous one ends. */
  function AllColumns(cb: K.ConditionBlock, reg: Option<Submatrix>, conf: Option<Submatrix>, art: Option<Submatrix>)
    : (columns: seq<C.Label>)
    ensures |columns| == |cb.names| + |ColumnsOf(reg)| + |ColumnsOf(conf)| + |ColumnsOf(art)|
    ensures columns[..|cb.names|] == Labels(cb.names)
    ensures columns[|cb.names|..|cb.names| + |ColumnsOf(reg)|] == ColumnsOf(reg)
    ensures columns[|cb.names| + |ColumnsOf(reg)|..|columns| - |ColumnsOf(art)|] == ColumnsOf(conf)
    ensures columns[|columns| - |ColumnsOf(art)|..] == ColumnsOf(art)
  {
    Labels(cb.names) + ColumnsOf(reg) + ColumnsOf(conf) + ColumnsOf(art)
  }

  /** The data columns of the regressors, confounds and artifacts, in that order. */
  function ComponentData(reg: Option<Submatrix>, conf: Option<Submatrix>, art: Option<Submatrix>)
    : seq<seq<real>>
  {
    DataOf(reg) + DataOf(conf) + DataOf(art)
  }

  /** `pd.concat(pieces, axis=1)` on the column data. */
  function AllData(cb: K.ConditionBlock, frametimes: seq<real>, reg: Option<Submatrix>, conf: Option<Submatrix>,
                   art: Option<Submatrix>)
    : (raw: seq<seq<real>>)
    requires |cb.cols| == |cb.names| && (forall c :: 0 <= c < |cb.cols| ==> |cb.cols[c]| == |frametimes|)
    requires ShapedOpt(reg, |frametimes|) && ShapedOpt(conf, |frametimes|) && ShapedOpt(art, |frametimes|)
    ensures raw == cb.cols + ComponentData(reg, conf, art)
    ensures |raw| == |cb.names| + |ColumnsOf(reg)| + |ColumnsOf(conf)| + |ColumnsOf(art)|
    ensures forall c :: 0 <= c < |raw| ==> |raw[c]| == |frametimes|
  {
    cb.cols + ComponentData(reg, conf, art)
  }

  /** Every name list refers to existing columns. */
  lemma NamesPresent(cb: K.ConditionBlock, condNames: seq<string>, reg: Option<Submatrix>,
                     conf: Option<Submatrix>, art: Option<Submatrix>)
    requires |condNames| <= |cb.names| && cb.names[..|condNames|] == condNames
    ensures var columns := AllColumns(cb, reg, conf, art);
      (forall i :: 0 <= i < |condNames| ==> Labels(condNames)[i] in columns)
      && (forall i :: 0 <= i < |ColumnsOf(reg)| ==> ColumnsOf(reg)[i] in columns)
      && (forall i :: 0 <= i < |ColumnsOf(conf)| ==> ColumnsOf(conf)[i] in columns)
      && (forall i :: 0 <= i < |ColumnsOf(art)| ==> ColumnsOf(art)[i] in columns)
  {
    var columns := AllColumns(cb, reg, conf, art);
    var n0 := |cb.names|;
    var n1 := n0 + |ColumnsOf(reg)|;
    var n2 := n1 + |ColumnsOf(conf)|;
    ColumnSlices(cb, condNames, reg, conf, art);
    assert columns[..|condNames|] == columns[0..|condNames|];
    RunPresent(columns, 0, |condNames|);
    RunPresent(columns, n0, n1);
    RunPresent(columns, n1, n2);
    RunPresent(columns, n2, |columns|);
  }

  /** The matrix `__init__` stores, from the condition block and the validated components. */
  function Assemble(cb: K.ConditionBlock, condNames: seq<string>, frametimes: seq<real>,
                    reg: Option<Submatrix>, conf: Option<Submatrix>, art: Option<Submatrix>)
    : (dm: DesignMatrix)
    requires AssemblyInputs(cb, condNames, frametimes, reg, conf, art)
    ensures |dm.columns| == |cb.names| + |ColumnsOf(reg)| + |ColumnsOf(conf)| + |ColumnsOf(art)|
    ensures |dm.ppHeights| == |dm.columns|
    ensures forall c :: 0 <= c < |dm.data| ==> Sum(dm.data[c]) == 0.0
  {
    var columns := AllColumns(cb, reg, conf, art);
    var data := DemeanAll(AllData(cb, frametimes, reg, conf, art), |frametimes|);
    var condLabels := Labels(condNames);
    var mainNames := condLabels + ColumnsOf(reg);
    DesignMatrix(
      columns, frametimes, data, condLabels, mainNames, ColumnsOf(conf), ColumnsOf(art),
      cb.ppHeights + Heights(ComponentData(reg, conf, art), |frametimes|),
      IsIn(columns, mainNames), IsIn(columns, condLabels),
      if conf.Some? then Some(IsIn(columns, ColumnsOf(conf))) else None,
      if art.Some? then Some(IsIn(columns, ColumnsOf(art))) else None)
  }

  /** The assembled matrix is rectangular and its name lists refer to its columns. */
  lemma AssembleValid(cb: K.ConditionBlock, condNames: seq<string>, frametimes: seq<real>,
                      reg: Option<Submatrix>, conf: Option<Submatrix>, art: Option<Submatrix>)
    requires AssemblyInputs(cb, condNames, frametimes, reg, conf, art)
    ensures Assemble(cb, condNames, frametimes, reg, conf, art).Valid()
  {
    NamesPresent(cb, condNames, reg, conf, art);
  }

  /** With distinct labels, a label's position is the one it was found at. */
  lemma IndexOfDistinct(columns: seq<C.Label>, p: nat)
    requires C.DistinctLabels(columns) && p < |columns|
    ensures IndexOf(columns, columns[p]) == p
  {
  }

  /** With distinct labels, a column lies in a slice exactly when its position does. */
  lemma SliceMembership(columns: seq<C.Label>, a: nat, b: nat, c: nat)
    requires C.DistinctLabels(columns) && a <= b <= |columns| && c < |columns|
    ensures columns[c] in columns[a..b] <==> a <= c < b
  {
    if columns[c] in columns[a..b] {
      var j :| 0 <= j < b - a && columns[a..b][j] == columns[c];
      assert columns[a + j] == columns[c];
    }
    if a <= c < b {
      assert columns[a..b][c - a] == columns[c];
    }
  }

  /** Each group of names is a contiguous run of the assembled columns. */
  lemma ColumnSlices(cb: K.ConditionBlock, condNames: seq<string>, reg: Option<Submatrix>,
                     conf: Option<Submatrix>, art: Option<Submatrix>)
    requires |condNames| <= |cb.names| && cb.names[..|condNames|] == condNames
    ensures var columns := AllColumns(cb, reg, conf, art);
      var n0 := |cb.names|;
      var n1 := n0 + |ColumnsOf(reg)|;
      var n2 := n1 + |ColumnsOf(conf)|;
      Labels(condNames) == columns[..|condNames|]
      && ColumnsOf(reg) == columns[n0..n1]
      && ColumnsOf(conf) == columns[n1..n2]
      && ColumnsOf(art) == columns[n2..|columns|]
  {
    var columns := AllColumns(cb, reg, conf, art);
    var n0 := |cb.names|;
    assert columns[..n0] == Labels(cb.names);
    forall i | 0 <= i < |condNames|
      ensures Labels(condNames)[i] == columns[i]
    {
      assert cb.names[i] == condNames[i];
    }
  }

  /** With distinct labels, `isin` of a run of the columns marks exactly that run. */
  lemma IsInSlice(columns: seq<C.Label>, a: nat, b: nat)
    requires C.DistinctLabels(columns) && a <= b <= |columns|
    ensures forall c :: 0 <= c < |columns| ==> (IsIn(columns, columns[a..b])[c] <==> a <= c < b)
  {
    forall c | 0 <= c < |columns|
      ensures IsIn(columns, columns[a..b])[c] <==> a <= c < b
    {
      IsInMarks(columns, columns[a..b], c);
      SliceMembership(columns, a, b, c);
    }
  }

  /** The same for two runs. */
  lemma IsInTwoSlices(columns: seq<C.Label>, a: nat, b: nat, a2: nat, b2: nat)
    requires C.DistinctLabels(columns) && a <= b <= |columns| && a2 <= b2 <= |columns|
    ensures forall c :: 0 <= c < |columns| ==>
              (IsIn(columns, columns[a..b] + columns[a2..b2])[c] <==> a <= c < b || a2 <= c < b2)
  {
    forall c | 0 <= c < |columns|
      ensures IsIn(columns, columns[a..b] + columns[a2..b2])[c] <==> a <= c < b || a2 <= c < b2
    {
      IsInMarks(columns, columns[a..b] + columns[a2..b2], c);
      SliceMembership(columns, a, b, c);
      SliceMembership(columns, a2, b2, c);
    }
  }

  /** What an assembled matrix stores: the condition columns followed by the
      component columns, all demeaned, and for heights the condition block's
      own followed by those of the component columns. */
  predicate Stored(dm: DesignMatrix, cb: K.ConditionBlock, comp: seq<seq<real>>, ntp: nat)
  {
    ntp > 0 && |cb.cols| == |cb.ppHeights|
    && (forall c :: 0 <= c < |comp| ==> |comp[c]| == ntp)
    && (forall c :: 0 <= c < |cb.cols + comp| ==> |(cb.cols + comp)[c]| == ntp)
    && dm.data == DemeanAll(cb.cols + comp, ntp)
    && dm.ppHeights == cb.ppHeights + Heights(comp, ntp)
  }

  /** The assembled matrix stores the demeaned columns and their heights. */
  lemma AssembledValues(cb: K.ConditionBlock, condNames: seq<string>, frametimes: seq<real>,
                        reg: Option<Submatrix>, conf: Option<Submatrix>, art: Option<Submatrix>)
    requires AssemblyInputs(cb, condNames, frametimes, reg, conf, art)
    ensures Stored(Assemble(cb, condNames, frametimes, reg, conf, art), cb, ComponentData(reg, conf, art), |frametimes|)
  {
  }

  /** A condition column keeps the height measured before the highpass filter. */
  lemma ConditionHeight(dm: DesignMatrix, cb: K.ConditionBlock, comp: seq<seq<real>>, ntp: nat, c: nat)
    requires Stored(dm, cb, comp, ntp) && c < |cb.cols|
    ensures dm.ppHeights[c] == cb.ppHeights[c]
  {
  }

  /** For a regressor, confound or artifact column the stored height is that
      of the demeaned matrix column: demeaning does not change it. */
  lemma ComponentHeight(dm: DesignMatrix, cb: K.ConditionBlock, comp: seq<seq<real>>, ntp: nat, c: nat)
    requires Stored(dm, cb, comp, ntp) && |cb.cols| <= c < |cb.cols| + |comp|
    ensures dm.ppHeights[c] == PeakToPeak(dm.data[c])
  {
    var x := comp[c - |cb.cols|];
    assert (cb.cols + comp)[c] == x;
    PeakToPeakShift(x, Mean(x));
  }

  /** Component column i (regressors, then confounds, then artifact
      indicators) enters the matrix demeaned, after the condition block. */
  lemma ComponentDemeaned(dm: DesignMatrix, cb: K.ConditionBlock, comp: seq<seq<real>>, ntp: nat, i: nat)
    requires Stored(dm, cb, comp, ntp) && i < |comp|
    ensures dm.data[|cb.cols| + i] == Demean(comp[i])
  {
    assert (cb.cols + comp)[|cb.cols| + i] == comp[i];
  }

  /** Every label of a run of the columns is a column label. */
  lemma RunPresent(columns: seq<C.Label>, a: nat, b: nat)
    requires a <= b <= |columns|
    ensures forall i :: 0 <= i < b - a ==> columns[a..b][i] in columns
  {
    forall i | 0 <= i < b - a
      ensures columns[a..b][i] in columns
    {
      assert columns[a..b][i] == columns[a + i];
    }
  }

  lemma PickRun(columns: seq<C.Label>, data: seq<seq<real>>, a: nat, b: nat)
    requires |data| == |columns| && C.DistinctLabels(columns) && a <= b <= |columns|
    requires forall i :: 0 <= i < b - a ==> columns[a..b][i] in columns
    ensures Pick(columns, data, columns[a..b]) == data[a..b]
  {
    var names := columns[a..b];
    var picked := Pick(columns, data, names);
    forall i | 0 <= i < |names|
      ensures picked[i] == data[a + i]
    {
      assert names[i] == columns[a + i];
      IndexOfDistinct(columns, a + i);
    }
  }

  /** With distinct labels, selecting a run of the columns gives that run. */
  lemma SelectRun(columns: seq<C.Label>, data: seq<seq<real>>, a: nat, b: nat)
    requires |data| == |columns| && C.DistinctLabels(columns) && a <= b <= |columns|
    ensures Select(columns, data, columns[a..b]) == Submatrix(columns[a..b], data[a..b])
  {
    RunPresent(columns, a, b);
    SelectDistinct(columns, data, columns[a..b]);
    PickRun(columns, data, a, b);
  }

  /** Where each group of names sits among the columns of a matrix: the
      condition names are the first k columns, the main names add the run
      n0..n1, the confound names are the run n1..n2, the artifact names the
      columns from n2 on. */
  predicate Layout(dm: DesignMatrix, k: nat, n0: nat, n1: nat, n2: nat)
  {
    k <= n0 <= n1 <= n2 <= |dm.columns|
    && dm.conditionNames == dm.columns[..k]
    && dm.mainNames == dm.columns[..k] + dm.columns[n0..n1]
    && dm.confoundNames == dm.columns[n1..n2]
    && dm.artifactNames == dm.columns[n2..|dm.columns|]
  }

  /** The masks of a matrix: `isin` of each name list over the columns; the
      confound and artifact masks are absent only when their name lists are empty. */
  predicate Masked(dm: DesignMatrix)
  {
    dm.conditionVector == IsIn(dm.columns, dm.conditionNames)
    && dm.mainVector == IsIn(dm.columns, dm.mainNames)
    && (dm.confoundVector.Some? ==> dm.confoundVector.value == IsIn(dm.columns, dm.confoundNames))
    && (dm.confoundVector.None? ==> |dm.confoundNames| == 0)
    && (dm.artifactVector.Some? ==> dm.artifactVector.value == IsIn(dm.columns, dm.artifactNames))
    && (dm.artifactVector.None? ==> |dm.artifactNames| == 0)
  }

  /** The assembled columns are the condition block (conditions, then their
      derivatives), the regressors, the confounds and the artifacts; each
      name list is the matching run of them, and the confound and artifact
      masks exist exactly when confounds and artifacts were given. */
  lemma AssembleLayout(cb: K.ConditionBlock, condNames: seq<string>, frametimes: seq<real>,
                       reg: Option<Submatrix>, conf: Option<Submatrix>, art: Option<Submatrix>)
    requires AssemblyInputs(cb, condNames, frametimes, reg, conf, art)
    ensures var dm := Assemble(cb, condNames, frametimes, reg, conf, art);
      var n0 := |cb.names|;
      var n1 := n0 + |ColumnsOf(reg)|;
      var n2 := n1 + |ColumnsOf(conf)|;
      dm.columns == AllColumns(cb, reg, conf, art) && Layout(dm, |condNames|, n0, n1, n2) && Masked(dm)
      && (dm.confoundVector.Some? <==> conf.Some?) && (dm.artifactVector.Some? <==> art.Some?)
  {
    ColumnSlices(cb, condNames, reg, conf, art);
  }

  /* The masks pick out the column groups by position: the conditions come
     first, the regressors of interest follow the condition block (whose
     tail holds the derivative columns), then the confounds, then the
     artifacts. The "if" directions hold for any labels (MasksMarkRuns); the
     "only if" directions need distinct labels, since a mask also marks a repeat. */

  /** For any labels, each mask marks its own run of columns, so without
      derivative columns every column is marked by some mask. */
  lemma MasksMarkRuns(dm: DesignMatrix, k: nat, n0: nat, n1: nat, n2: nat)
    requires Layout(dm, k, n0, n1, n2) && Masked(dm)
    ensures forall c :: 0 <= c < k ==> dm.conditionVector[c] && dm.mainVector[c]
    ensures forall c :: n0 <= c < n1 ==> dm.mainVector[c]
    ensures forall c :: n1 <= c < n2 ==> dm.confoundVector.Some? && dm.confoundVector.value[c]
    ensures forall c :: n2 <= c < |dm.columns| ==> dm.artifactVector.Some? && dm.artifactVector.value[c]
    ensures k == n0 ==> forall c :: 0 <= c < |dm.columns| ==>
              dm.mainVector[c] || (dm.confoundVector.Some? && dm.confoundVector.value[c])
              || (dm.artifactVector.Some? && dm.artifactVector.value[c])
  {
    forall c | 0 <= c < |dm.columns|
      ensures c < k ==> dm.conditionVector[c] && dm.mainVector[c]
      ensures n0 <= c < n1 ==> dm.mainVector[c]
      ensures n1 <= c < n2 ==> dm.confoundVector.Some? && dm.confoundVector.value[c]
      ensures n2 <= c ==> dm.artifactVector.Some? && dm.artifactVector.value[c]
    {
      IsInMarks(dm.columns, dm.conditionNames, c);
      IsInMarks(dm.columns, dm.mainNames, c);
      IsInMarks(dm.columns, dm.confoundNames, c);
      IsInMarks(dm.columns, dm.artifactNames, c);
      if c < k {
        assert dm.columns[..k][c] == dm.columns[c];
        assert dm.mainNames[c] == dm.columns[c];
      }
      if n0 <= c < n1 {
        assert dm.mainNames[k + (c - n0)] == dm.columns[c];
      }
      if n1 <= c < n2 {
        assert dm.confoundNames[c - n1] == dm.columns[c];
      }
      if n2 <= c {
        assert dm.artifactNames[c - n2] == dm.columns[c];
      }
    }
  }

  /** `condition_vector` marks the named conditions and nothing else. */
  lemma ConditionMask(dm: DesignMatrix, k: nat, n0: nat, n1: nat, n2: nat)
    requires C.DistinctLabels(dm.columns) && Layout(dm, k, n0, n1, n2) && Masked(dm)
    ensures |dm.conditionVector| == |dm.columns|
    ensures forall c :: 0 <= c < |dm.columns| ==> (dm.conditionVector[c] <==> c < k)
  {
    assert dm.columns[..k] == dm.columns[0..k];
    IsInSlice(dm.columns, 0, k);
  }

  /** `main_vector` marks the named conditions and the regressors of interest. */
  lemma MainMask(dm: DesignMatrix, k: nat, n0: nat, n1: nat, n2: nat)
    requires C.DistinctLabels(dm.columns) && Layout(dm, k, n0, n1, n2) && Masked(dm)
    ensures |dm.mainVector| == |dm.columns|
    ensures forall c :: 0 <= c < |dm.columns| ==> (dm.mainVector[c] <==> c < k || n0 <= c < n1)
  {
    assert dm.columns[..k] == dm.columns[0..k];
    IsInTwoSlices(dm.columns, 0, k, n0, n1);
  }

  /** `confound_vector`, when present, marks the confounds and nothing else. */
  lemma ConfoundMask(dm: DesignMatrix, k: nat, n0: nat, n1: nat, n2: nat)
    requires C.DistinctLabels(dm.columns) && Layout(dm, k, n0, n1, n2) && Masked(dm)
    ensures dm.confoundVector.None? ==> n1 == n2
    ensures dm.confoundVector.Some? ==>
              |dm.confoundVector.value| == |dm.columns|
              && forall c :: 0 <= c < |dm.columns| ==> (dm.confoundVector.value[c] <==> n1 <= c < n2)
  {
    IsInSlice(dm.columns, n1, n2);
  }

  /** `artifact_vector`, when present, marks the artifact indicators and nothing else. */
  lemma ArtifactMask(dm: DesignMatrix, k: nat, n0: nat, n1: nat, n2: nat)
    requires C.DistinctLabels(dm.columns) && Layout(dm, k, n0, n1, n2) && Masked(dm)
    ensures dm.artifactVector.None? ==> n2 == |dm.columns|
    ensures dm.artifactVector.Some? ==>
              |dm.artifactVector.value| == |dm.columns|
              && forall c :: 0 <= c < |dm.columns| ==> (dm.artifactVector.value[c] <==> n2 <= c)
  {
    IsInSlice(dm.columns, n2, |dm.columns|);
  }

  /** The derivative columns belong to no group: no mask marks them. */
  lemma DerivativeColumnsUnmasked(dm: DesignMatrix, k: nat, n0: nat, n1: nat, n2: nat, c: nat)
    requires C.DistinctLabels(dm.columns) && Layout(dm, k, n0, n1, n2) && Masked(dm)
    requires k <= c < n0
    ensures !dm.mainVector[c] && !dm.conditionVector[c]
    ensures dm.confoundVector.Some? ==> !dm.confoundVector.value[c]
    ensures dm.artifactVector.Some? ==> !dm.artifactVector.value[c]
  {
    ConditionMask(dm, k, n0, n1, n2);
    MainMask(dm, k, n0, n1, n2);
    ConfoundMask(dm, k, n0, n1, n2);
    ArtifactMask(dm, k, n0, n1, n2);
  }

  /** Without derivative columns, every column is marked by the main mask or
      by exactly one of the confound and artifact masks. */
  lemma MasksCoverWithoutDerivatives(dm: DesignMatrix, k: nat, n0: nat, n1: nat, n2: nat, c: nat)
    requires C.DistinctLabels(dm.columns) && Layout(dm, k, n0, n1, n2) && Masked(dm)
    requires k == n0 && c < |dm.columns|
    ensures var conf := dm.confoundVector.Some? && dm.confoundVector.value[c];
      var art := dm.artifactVector.Some? && dm.artifactVector.value[c];
      (dm.mainVector[c] && !conf && !art) || (!dm.mainVector[c] && conf && !art)
      || (!dm.mainVector[c] && !conf && art)
  {
    MainMask(dm, k, n0, n1, n2);
    ConfoundMask(dm, k, n0, n1, n2);
    ArtifactMask(dm, k, n0, n1, n2);
  }

  /** Selecting the names of two lists is selecting each in turn. */
  lemma {:induction false} SelectAppend(columns: seq<C.Label>, data: seq<seq<real>>, a: seq<C.Label>, b: seq<C.Label>)
    requires |data| == |columns|
    ensures Select(columns, data, a + b).columns == Select(columns, data, a).columns + Select(columns, data, b).columns
    ensures Select(columns, data, a + b).data == Select(columns, data, a).data + Select(columns, data, b).data
  {
    if |b| > 0 {
      var init := b[..|b| - 1];
      SelectAppend(columns, data, a, init);
      AppendInit(a, b);
      SelectStep(columns, data, a + b);
      SelectStep(columns, data, b);
      var m := Matching(columns, data, b[|b| - 1], |columns|);
      var sa, si := Select(columns, data, a), Select(columns, data, init);
      Assoc(sa.columns, si.columns, m.columns);
      Assoc(sa.data, si.data, m.data);
    } else {
      assert a + b == a;
    }
  }

  lemma AppendInit<T>(a: seq<T>, b: seq<T>)
    requires |b| > 0
    ensures (a + b)[..|a + b| - 1] == a + b[..|b| - 1] && (a + b)[|a + b| - 1] == b[|b| - 1]
  {
  }

  lemma Assoc<T>(x: seq<T>, y: seq<T>, z: seq<T>)
    ensures (x + y) + z == x + (y + z)
  {
  }

  /** With distinct labels, the condition submatrix is the leading columns,
      in the order of the condition names. */
  lemma ConditionSubmatrixIsLeading(dm: DesignMatrix, k: nat, n0: nat, n1: nat, n2: nat)
    requires dm.Valid() && C.DistinctLabels(dm.columns) && Layout(dm, k, n0, n1, n2)
    ensures dm.ConditionSubmatrix() == Submatrix(dm.columns[..k], dm.data[..k])
  {
    SelectRun(dm.columns, dm.data, 0, k);
    assert dm.columns[0..k] == dm.columns[..k] && dm.data[0..k] == dm.data[..k];
  }

  /** With distinct labels, the main submatrix is the condition columns
      without their derivatives, followed by the regressors of interest. */
  lemma MainSubmatrixSkipsDerivatives(dm: DesignMatrix, k: nat, n0: nat, n1: nat, n2: nat)
    requires dm.Valid() && C.DistinctLabels(dm.columns) && Layout(dm, k, n0, n1, n2)
    ensures dm.MainSubmatrix() == Submatrix(dm.columns[..k] + dm.columns[n0..n1], dm.data[..k] + dm.data[n0..n1])
  {
    SelectAppend(dm.columns, dm.data, dm.columns[..k], dm.columns[n0..n1]);
    SelectRun(dm.columns, dm.data, 0, k);
    SelectRun(dm.columns, dm.data, n0, n1);
    assert dm.columns[0..k] == dm.columns[..k] && dm.data[0..k] == dm.data[..k];
  }

  /** With distinct labels and some confound column, the confound submatrix
      is the run of confound columns. */
  lemma ConfoundSubmatrixIsRun(dm: DesignMatrix, k: nat, n0: nat, n1: nat, n2: nat)
    requires dm.Valid() && C.DistinctLabels(dm.columns) && Layout(dm, k, n0, n1, n2) && n1 < n2
    ensures dm.ConfoundSubmatrix() == Some(Submatrix(dm.columns[n1..n2], dm.data[n1..n2]))
  {
    SelectRun(dm.columns, dm.data, n1, n2);
  }

  /** With distinct labels and some artifact column, the artifact submatrix
      is the trailing run of columns. */
  lemma ArtifactSubmatrixIsTail(dm: DesignMatrix, k: nat, n0: nat, n1: nat, n2: nat)
    requires dm.Valid() && C.DistinctLabels(dm.columns) && Layout(dm, k, n0, n1, n2) && n2 < |dm.columns|
    ensures dm.ArtifactSubmatrix() == Some(Submatrix(dm.artifactNames, dm.data[n2..|dm.columns|]))
  {
    SelectRun(dm.columns, dm.data, n2, |dm.columns|);
  }

  /** An absent or all-clear artifact mask leaves no artifact submatrix and no artifact mask. */
  lemma NoArtifactsNoArtifactGroup(cb: K.ConditionBlock, condNames: seq<string>, frametimes: seq<real>,
                                   reg: Option<Submatrix>, conf: Option<Submatrix>, mask: Option<seq<bool>>)
    requires AssemblyInputs(cb, condNames, frametimes, reg, conf, ArtifactBlock(mask))
    requires mask.None? || !C.Any(mask.value)
    ensures var dm := Assemble(cb, condNames, frametimes, reg, conf, ArtifactBlock(mask));
      dm.Valid() && dm.ArtifactSubmatrix().None? && dm.artifactVector.None?
      && dm.columns == Labels(cb.names) + ColumnsOf(reg) + ColumnsOf(conf)
  {
    AssembleValid(cb, condNames, frametimes, reg, conf, ArtifactBlock(mask));
  }

  /** `contrast_vector`'s weight for a column labelled `name` after the
      first n (name, weight) pairs: the last pair naming it wins, and an
      unnamed column keeps 0. */
  function ContrastAt(name: C.Label, names: seq<C.Label>, weights: seq<real>, n: nat): real
    requires n <= |names| && n <= |weights|
  {
    if n == 0 then 0.0
    else if names[n - 1] == name then weights[n - 1]
    else ContrastAt(name, names, weights, n - 1)
  }

  lemma {:induction false} ContrastUnlisted(name: C.Label, names: seq<C.Label>, weights: seq<real>, n: nat)
    requires n <= |names| && n <= |weights|
    requires name !in names[..n]
    ensures ContrastAt(name, names, weights, n) == 0.0
  {
    if n > 0 {
      assert names[n - 1] == names[..n][n - 1];
      assert names[..n - 1] == names[..n][..n - 1];
      ContrastUnlisted(name, names, weights, n - 1);
    }
  }

  lemma {:induction false} ContrastLastWins(name: C.Label, names: seq<C.Label>, weights: seq<real>, n: nat, i: nat)
    requires n <= |names| && n <= |weights| && i < n
    requires names[i] == name && forall j :: i < j < n ==> names[j] != name
    ensures ContrastAt(name, names, weights, n) == weights[i]
  {
    if n - 1 != i {
      ContrastLastWins(name, names, weights, n - 1, i);
    }
  }

  predicate InputOk(comp: C.ComponentInput, frametimes: seq<real>)
    reads Footprint(comp)
  {
    match comp
    case NoInput => true
    case ArrayInput(nrows, _) => nrows == |frametimes|
    case TableInput(t) => C.Aligned(t.index, frametimes)
  }

  /** The columns a validated component contributes. */
  function Validated(comp: C.ComponentInput, base: string): Option<Submatrix>
    reads Footprint(comp)
  {
    match comp
    case NoInput => None
    case ArrayInput(_, cols) => Some(Submatrix(C.DefaultLabels(base, |cols|), cols))
    case TableInput(t) => Some(Submatrix(C.Renamed(t.columns, base), t.data))
  }

  function Footprint(comp: C.ComponentInput): set<object>
  {
    if comp.TableInput? then {comp.t} else {}
  }

  /** An accepted component fits the frametimes. */
  lemma ValidatedShaped(comp: C.ComponentInput, base: string, frametimes: seq<real>)
    requires C.WellFormedInput(comp) && InputOk(comp, frametimes)
    ensures ShapedOpt(Validated(comp, base), |frametimes|)
  {
  }

  /** The artifact columns: `artifact_j` is the indicator of the j-th flagged frame. */
  function ArtifactBlock(mask: Option<seq<bool>>): (r: Option<Submatrix>)
    ensures r.None? <==> mask.None? || !C.Any(mask.value)
    ensures r.Some? ==> |r.value.columns| == |r.value.data| == C.Count(mask.value)
    ensures r.Some? ==> r.value.columns == C.DefaultLabels("artifact", C.Count(mask.value))
    ensures r.Some? ==> r.value.data == C.ExpandArtifacts(mask).value
  {
    match C.ExpandArtifacts(mask)
    case None => None
    case Some(cols) => Some(Submatrix(C.DefaultLabels("artifact", |cols|), cols))
  }

  /** The artifact indicators fit the frametimes (or there are none). */
  predicate ArtifactsOk(mask: Option<seq<bool>>, frametimes: seq<real>)
  {
    C.ExpandArtifacts(mask).None? || |mask.value| == |frametimes|
  }

  /** The arguments of `DesignMatrix.__init__` that reach the core: the hires
      grid and the frametimes (both `np.arange` grids), the event table, the
      condition names, the HRF model, the hires sample picked for each frame
      by the nearest-neighbour resampler, the highpass matrix (if any), and
      the three optional components. */
  datatype Arguments = Arguments(
    grid: seq<real>, frametimes: seq<real>, design: K.EventTable, condNames: seq<string>,
    model: H.HrfModel, picks: seq<nat>, filter: Option<seq<seq<real>>>,
    regressors: C.ComponentInput, confounds: C.ComponentInput, artifacts: Option<seq<bool>>)
  {
    function Tables(): set<object>
    {
      Footprint(regressors) + Footprint(confounds)
    }

    /** What the constructor relies on: nonempty grids, distinct condition
        names, picks inside the hires grid, a square filter, well-formed
        inputs, and two different tables for regressors and confounds. */
    ghost predicate Acceptable()
      reads Tables()
    {
      |grid| > 0 && K.WellFormedTable(design) && K.DistinctNames(condNames)
      && |picks| == |frametimes| > 0 && (forall t :: 0 <= t < |picks| ==> picks[t] < |grid|)
      && (filter.Some? ==> K.SquareOf(filter.value, |picks|))
      && C.WellFormedInput(regressors) && C.WellFormedInput(confounds)
      && (regressors.TableInput? && confounds.TableInput? ==> regressors.t != confounds.t)
    }

    /** Every step succeeds: the HRF can convolve, both components line up
        with the frametimes, and the artifact mask has one entry per frame. */
    predicate Succeeds()
      reads Tables()
    {
      K.ConvolvesOk(model, condNames) && InputOk(regressors, frametimes) && InputOk(confounds, frametimes)
      && ArtifactsOk(artifacts, frametimes)
    }

    /** The matrix the constructor builds when every step succeeds. */
    ghost function Expected(): DesignMatrix
      reads Tables()
      requires Acceptable() && Succeeds()
    {
      ValidatedShaped(regressors, "regressor", frametimes);
      ValidatedShaped(confounds, "confound", frametimes);
      Assemble(K.ConditionMatrix(grid, design, condNames, model, picks, filter), condNames, frametimes,
               Validated(regressors, "regressor"), Validated(confounds, "confound"), ArtifactBlock(artifacts))
    }
  }

  /** The matrix expected from successful steps is the assembly of their results. */
  lemma ExpectedAssembly(args: Arguments, cb: K.ConditionBlock, reg: Option<Submatrix>, conf: Option<Submatrix>)
    requires args.Acceptable() && args.Succeeds()
    requires cb == K.ConditionMatrix(args.grid, args.design, args.condNames, args.model, args.picks, args.filter)
    requires reg == Validated(args.regressors, "regressor") && conf == Validated(args.confounds, "confound")
    ensures AssemblyInputs(cb, args.condNames, args.frametimes, reg, conf, ArtifactBlock(args.artifacts))
    ensures args.Expected() == Assemble(cb, args.condNames, args.frametimes, reg, conf, ArtifactBlock(args.artifacts))
  {
    ValidatedShaped(args.regressors, "regressor", args.frametimes);
    ValidatedShaped(args.confounds, "confound", args.frametimes);
  }

  /** The columns of a validated table. */
  function Contents(t: Option<C.Table>): Option<Submatrix>
    reads if t.Some? then {t.value} else {}
  {
    if t.Some? then Some(Submatrix(t.value.columns, t.value.data)) else None
  }

  /** The validation steps of `DesignMatrix.__init__`: regressors, then
      confounds, then the artifact indicators. The first failure ends the
      run, leaving the tables validated before it renamed and reindexed. */
  method ValidateComponents(args: Arguments) returns (r: Result<(Option<Submatrix>, Option<Submatrix>, Option<Submatrix>)>)
    requires args.Acceptable()
    modifies args.Tables()
    ensures r.Ok? <==>
              old(InputOk(args.regressors, args.frametimes)) && old(InputOk(args.confounds, args.frametimes))
              && ArtifactsOk(args.artifacts, args.frametimes)
    ensures r.Ok? ==>
              r.value == (old(Validated(args.regressors, "regressor")), old(Validated(args.confounds, "confound")),
                          ArtifactBlock(args.artifacts))
    ensures r.Ok? && args.regressors.TableInput? ==> args.regressors.t.index == args.frametimes
    ensures r.Ok? && args.confounds.TableInput? ==> args.confounds.t.index == args.frametimes
    ensures r.Ok? && args.regressors.TableInput? ==>
              args.regressors.t.columns == C.Renamed(old(args.regressors.t.columns), "regressor")
              && args.regressors.t.data == old(args.regressors.t.data)
    ensures r.Ok? && args.confounds.TableInput? ==>
              args.confounds.t.columns == C.Renamed(old(args.confounds.t.columns), "confound")
              && args.confounds.t.data == old(args.confounds.t.data)
  {
    var vr := C.ValidateComponent(args.regressors, args.frametimes, "regressor");
    if vr.Err? {
      return Err(vr.message);
    }
    var reg := Contents(vr.value);
    var vc := C.ValidateComponent(args.confounds, args.frametimes, "confound");
    if vc.Err? {
      return Err(vc.message);
    }
    var conf := Contents(vc.value);
    var va := ValidateArtifacts(args.artifacts, args.frametimes);
    if va.Err? {
      return Err(va.message);
    }
    return Ok((reg, conf, va.value));
  }

  /** The artifact step: the indicator columns of the flagged frames are
      validated as a plain array, so a mask of another length than the
      frametimes is refused, unless no frame is flagged. */
  method ValidateArtifacts(mask: Option<seq<bool>>, frametimes: seq<real>) returns (r: Result<Option<Submatrix>>)
    ensures r.Ok? <==> ArtifactsOk(mask, frametimes)
    ensures r.Ok? ==> r.value == ArtifactBlock(mask)
  {
    var expanded := C.ExpandArtifacts(mask);
    if expanded.None? {
      return Ok(None);
    }
    var va := C.ValidateComponent(C.ArrayInput(|mask.value|, expanded.value), frametimes, "artifact");
    if va.Err? {
      return Err(va.message);
    }
    return Ok(Contents(va.value));
  }

  /** `DesignMatrix.__init__`. The condition block is computed first, then
      each component is validated in turn, then the whole is assembled. */
  method Build(args: Arguments) returns (r: Result<DesignMatrix>)
    requires args.Acceptable()
    modifies args.Tables()
    ensures r.Ok? <==> old(args.Succeeds())
    ensures r.Ok? ==> r.value == old(args.Expected())
    ensures r.Ok? && args.regressors.TableInput? ==> args.regressors.t.index == args.frametimes
    ensures r.Ok? && args.confounds.TableInput? ==> args.confounds.t.index == args.frametimes
    ensures r.Ok? && args.regressors.TableInput? ==>
              args.regressors.t.columns == C.Renamed(old(args.regressors.t.columns), "regressor")
              && args.regressors.t.data == old(args.regressors.t.data)
    ensures r.Ok? && args.confounds.TableInput? ==>
              args.confounds.t.columns == C.Renamed(old(args.confounds.t.columns), "confound")
              && args.confounds.t.data == old(args.confounds.t.data)
  {
    ghost var ok := args.Succeeds();
    ghost var expected: Option<DesignMatrix> := if ok then Some(args.Expected()) else None;
    ghost var reg0, conf0 := Validated(args.regressors, "regressor"), Validated(args.confounds, "confound");
    var cr := K.BuildConditions(args.grid, args.design, args.condNames, args.model, args.picks, args.filter);
    if cr.Err? {
      return Err(cr.message);
    }
    if ok {
      ExpectedAssembly(args, cr.value, reg0, conf0);
    }
    var vs := ValidateComponents(args);
    if vs.Err? {
      return Err(vs.message);
    }
    assert ok && vs.value == (reg0, conf0, ArtifactBlock(args.artifacts));
    var (reg, conf, art) := vs.value;
    r := Ok(Assemble(cr.value, args.condNames, args.frametimes, reg, conf, art));
    assert r.value == expected.value;
  }
}
